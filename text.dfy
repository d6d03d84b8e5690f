/** String operations the pages call on `seq<char>`: the character classes of
    JavaScript regular expressions, `toLowerCase`, `trim`, `includes`,
    `split`/`join`, global replacement of a literal pattern, and the
    "lower-case and dash the whitespace" slug used for generated ids. */
module Text {

  /** JavaScript's `\s` class; `String.prototype.trim` strips the same set. */
  predicate IsSpace(c: char) {
    c == ' ' || c == '\t' || c == '\n' || c == '\r' || c == '\U{000B}' || c == '\U{000C}'
    || c == '\U{00A0}' || c == '\U{1680}' || ('\U{2000}' <= c <= '\U{200A}')
    || c == '\U{2028}' || c == '\U{2029}' || c == '\U{202F}' || c == '\U{205F}'
    || c == '\U{3000}' || c == '\U{FEFF}'
  }

  /** JavaScript's `\w` class: ASCII letters, digits and the underscore. */
  predicate IsWordChar(c: char) {
    'a' <= c <= 'z' || 'A' <= c <= 'Z' || '0' <= c <= '9' || c == '_'
  }

  /** A string the pattern `\w+` matches entirely. */
  predicate IsWord(s: string) {
    |s| > 0 && forall i :: 0 <= i < |s| ==> IsWordChar(s[i])
  }

  predicate NoSpace(s: string) {
    forall i :: 0 <= i < |s| ==> !IsSpace(s[i])
  }

  predicate AllSpace(s: string) {
    forall i :: 0 <= i < |s| ==> IsSpace(s[i])
  }

  /** `toLowerCase` on one character (ASCII letters only). */
  function LowerChar(c: char): (d: char)
    ensures !('A' <= d <= 'Z')
    ensures IsSpace(d) == IsSpace(c)
    ensures !('A' <= c <= 'Z') ==> d == c
  {
    if 'A' <= c <= 'Z' then (c as int + 32) as char else c
  }

  /** `String.prototype.toLowerCase`. */
  function Lower(s: string): (r: string)
    ensures |r| == |s|
    ensures forall i :: 0 <= i < |s| ==> r[i] == LowerChar(s[i])
  {
    seq(|s|, i requires 0 <= i < |s| => LowerChar(s[i]))
  }

  /** Lower-casing twice is lower-casing once. */
  lemma LowerIdempotent(s: string)
    ensures Lower(Lower(s)) == Lower(s)
  {
  }

  /** `p` occurs in `s` at index `i`. */
  predicate StartsWithAt(s: string, i: nat, p: string) {
    i + |p| <= |s| && s[i..i + |p|] == p
  }

  /** `String.prototype.includes`. */
  predicate Contains(s: string, sub: string) {
    exists i :: 0 <= i <= |s| && StartsWithAt(s, i, sub)
  }

  /** Every string includes the empty string. */
  lemma ContainsEmpty(s: string)
    ensures Contains(s, "")
  {
    assert StartsWithAt(s, 0, "");
  }

  /** `s.toLowerCase().includes(term.toLowerCase())`. */
  predicate IncludesIgnoringCase(s: string, term: string) {
    Contains(Lower(s), Lower(term))
  }

  lemma IncludesEmptyTerm(s: string)
    ensures IncludesIgnoringCase(s, "")
  {
    ContainsEmpty(Lower(s));
  }

  /** An occurrence in the tail of `s` is an occurrence in `s`. */
  lemma ContainsTail(s: string, sub: string)
    requires |s| > 0 && Contains(s[1..], sub)
    ensures Contains(s, sub)
  {
    var i :| 0 <= i <= |s[1..]| && StartsWithAt(s[1..], i, sub);
    assert s[i + 1..i + 1 + |sub|] == s[1..][i..i + |sub|];
    assert StartsWithAt(s, i + 1, sub);
  }

  /** A non-empty pattern that starts nowhere in `lo..hi` of `s` does not
      occur in the slice `s[lo..hi]`. */
  lemma SliceLacks(s: string, lo: nat, hi: nat, sub: string)
    requires lo <= hi <= |s| && |sub| > 0
    requires forall q :: lo <= q < hi ==> !StartsWithAt(s, q, sub)
    ensures !Contains(s[lo..hi], sub)
  {
    var t := s[lo..hi];
    forall q | 0 <= q <= |t| ensures !StartsWithAt(t, q, sub) {
      if StartsWithAt(t, q, sub) {
        assert lo + q < hi;
        var inS, inT := s[lo + q..lo + q + |sub|], t[q..q + |sub|];
        assert forall j :: 0 <= j < |sub| ==> inS[j] == inT[j];
        assert StartsWithAt(s, lo + q, sub);
      }
    }
  }

  /** An occurrence in a suffix of `s` is an occurrence in `s`. */
  lemma {:induction false} ContainsSuffix(s: string, k: nat, sub: string)
    requires k <= |s| && Contains(s[k..], sub)
    ensures Contains(s, sub)
  {
    if k > 0 {
      assert s[k..] == s[1..][k - 1..];
      ContainsSuffix(s[1..], k - 1, sub);
      ContainsTail(s, sub);
    }
  }

  /** Global replacement of a non-empty literal pattern, scanning left to
      right without re-scanning inserted text: what both
      `s.replace(new RegExp(p, 'g'), rep)` (for a pattern without regular
      expression operators and a replacement without `$`) and
      `s.split(p).join(rep)` compute. */
  function ReplaceAll(s: string, pat: string, rep: string): (r: string)
    requires |pat| > 0
    ensures !Contains(s, pat) ==> r == s
    decreases |s|
  {
    if |s| < |pat| then s
    else if s[..|pat|] == pat then
      assert StartsWithAt(s, 0, pat);
      rep + ReplaceAll(s[|pat|..], pat, rep)
    else
      assert Contains(s[1..], pat) ==> Contains(s, pat) by {
        if Contains(s[1..], pat) { ContainsTail(s, pat); }
      }
      [s[0]] + ReplaceAll(s[1..], pat, rep)
  }

  /** Replacing an occurrence preceded by text in which the pattern does
      not start: the text is kept and the occurrence becomes `rep`. */
  lemma ReplaceAllAt(a: string, pat: string, rep: string, b: string)
    requires |pat| > 0
    requires forall q :: 0 <= q < |a| ==> !StartsWithAt(a + pat + b, q, pat)
    ensures ReplaceAll(a + pat + b, pat, rep) == a + rep + ReplaceAll(b, pat, rep)
  {
    ReplaceAllSkip(a + pat + b, |a|, pat, rep);
    ConcatSlices(a, pat, b);
    ReplaceAllHit(pat + b, pat, rep);
    var tail := ReplaceAll(b, pat, rep);
    assert a + (rep + tail) == a + rep + tail;
  }

  /** The pieces of `a + pat + b` at the boundaries. */
  lemma ConcatSlices(a: string, pat: string, b: string)
    ensures (a + pat + b)[..|a|] == a && (a + pat + b)[|a|..] == pat + b
    ensures (pat + b)[|pat|..] == b && StartsWithAt(pat + b, 0, pat)
  {
    assert (pat + b)[..|pat|] == pat;
  }

  /** A prefix in which the pattern does not start is copied unchanged. */
  lemma {:induction false} ReplaceAllSkip(s: string, n: nat, pat: string, rep: string)
    requires |pat| > 0 && n <= |s|
    requires forall q :: 0 <= q < n ==> !StartsWithAt(s, q, pat)
    ensures ReplaceAll(s, pat, rep) == s[..n] + ReplaceAll(s[n..], pat, rep)
    decreases n
  {
    if n == 0 {
      assert s[..0] == [] && s[0..] == s;
    } else {
      NoStartInTail(s, pat, n);
      ReplaceAllSkip(s[1..], n - 1, pat, rep);
      ReplaceAllMiss(s, pat, rep);
      ShiftSlices(s, n, ReplaceAll(s[n..], pat, rep));
    }
  }

  /** The slices of `s[1..]` at `n - 1` are those of `s` at `n`, less the
      first character. */
  lemma ShiftSlices(s: string, n: nat, y: string)
    requires 0 < n <= |s|
    ensures s[1..][n - 1..] == s[n..]
    ensures [s[0]] + (s[1..][..n - 1] + y) == s[..n] + y
  {
    assert [s[0]] + s[1..][..n - 1] == s[..n];
  }

  /** Positions where `pat` does not start in `s` shift by one in `s[1..]`. */
  lemma NoStartInTail(s: string, pat: string, n: nat)
    requires 0 < n <= |s|
    requires forall q :: 0 <= q < n ==> !StartsWithAt(s, q, pat)
    ensures forall q :: 0 <= q < n - 1 ==> !StartsWithAt(s[1..], q, pat)
  {
    forall q | 0 <= q < n - 1 ensures !StartsWithAt(s[1..], q, pat) {
      assert !StartsWithAt(s, q + 1, pat);
      if q + |pat| <= |s| - 1 {
        assert s[1..][q..q + |pat|] == s[q + 1..q + 1 + |pat|];
      }
    }
  }

  /** At an occurrence the replacement is emitted and the scan skips it. */
  lemma ReplaceAllHit(s: string, pat: string, rep: string)
    requires |pat| > 0 && StartsWithAt(s, 0, pat)
    ensures ReplaceAll(s, pat, rep) == rep + ReplaceAll(s[|pat|..], pat, rep)
  {
  }

  /** Elsewhere the character is kept and the scan moves on by one. */
  lemma ReplaceAllMiss(s: string, pat: string, rep: string)
    requires |pat| > 0 && |s| > 0 && !StartsWithAt(s, 0, pat)
    ensures ReplaceAll(s, pat, rep) == [s[0]] + ReplaceAll(s[1..], pat, rep)
  {
    if |s| < |pat| {
      assert !Contains(s, pat);
      assert !Contains(s[1..], pat);
    }
  }

  /** `s.split(pat)` for a non-empty string separator: the pieces between the
      occurrences found scanning left to right. */
  function SplitOn(s: string, pat: string): (r: seq<string>)
    requires |pat| > 0
    ensures |r| > 0
    decreases |s|
  {
    if |s| < |pat| then [s]
    else if s[..|pat|] == pat then [""] + SplitOn(s[|pat|..], pat)
    else
      var rest := SplitOn(s[1..], pat);
      [[s[0]] + rest[0]] + rest[1..]
  }

  /** `s.split(pat).join(rep)` replaces every occurrence, exactly as the
      global replacement does. */
  lemma {:induction false} SplitOnJoin(s: string, pat: string, rep: string)
    requires |pat| > 0
    ensures Join(SplitOn(s, pat), rep) == ReplaceAll(s, pat, rep)
    decreases |s|
  {
    if |s| < |pat| {
    } else if s[..|pat|] == pat {
      var rest := SplitOn(s[|pat|..], pat);
      SplitOnJoin(s[|pat|..], pat, rep);
      assert ([""] + rest)[1..] == rest;
      ReplaceAllHit(s, pat, rep);
      calc {
        Join(SplitOn(s, pat), rep);
        Join([""] + rest, rep);
        "" + rep + Join(rest, rep);
        rep + ReplaceAll(s[|pat|..], pat, rep);
      }
    } else {
      var rest := SplitOn(s[1..], pat);
      SplitOnJoin(s[1..], pat, rep);
      JoinPrefixFirst(rest, [s[0]], rep);
      assert !StartsWithAt(s, 0, pat);
      ReplaceAllMiss(s, pat, rep);
      calc {
        Join(SplitOn(s, pat), rep);
        Join([[s[0]] + rest[0]] + rest[1..], rep);
        [s[0]] + Join(rest, rep);
        [s[0]] + ReplaceAll(s[1..], pat, rep);
      }
    }
  }

  /** Drops leading whitespace (`trimStart`). */
  function TrimStart(s: string): (r: string)
    ensures |r| <= |s| && r == s[|s| - |r|..]
    ensures AllSpace(s[..|s| - |r|])
    ensures r == [] || !IsSpace(r[0])
    decreases |s|
  {
    if |s| > 0 && IsSpace(s[0]) then TrimStart(s[1..]) else s
  }

  /** Drops trailing whitespace (`trimEnd`). */
  function TrimEnd(s: string): (r: string)
    ensures |r| <= |s| && r == s[..|r|]
    ensures AllSpace(s[|r|..])
    ensures r == [] || !IsSpace(r[|r| - 1])
    decreases |s|
  {
    if |s| > 0 && IsSpace(s[|s| - 1]) then TrimEnd(s[..|s| - 1]) else s
  }

  /** `String.prototype.trim`. */
  function Trim(s: string): string {
    TrimEnd(TrimStart(s))
  }

  /** `!s.trim()`: the string is empty once trimmed exactly when every
      character is whitespace. */
  lemma TrimEmptyIffBlank(s: string)
    ensures Trim(s) == "" <==> AllSpace(s)
  {
    var a := TrimStart(s);
    if Trim(s) == "" {
      assert a == [];
      assert s[..|s|] == s;
    }
  }

  /** A string with no surrounding whitespace is its own trim. */
  lemma TrimOfTrimmed(s: string)
    requires s == [] || (!IsSpace(s[0]) && !IsSpace(s[|s| - 1]))
    ensures Trim(s) == s
  {
  }

  /** Leading whitespace never survives `trimStart`. */
  lemma {:induction false} TrimStartDropsLeadingSpace(w: string, s: string)
    requires AllSpace(w)
    ensures TrimStart(w + s) == TrimStart(s)
  {
    if w != [] {
      assert IsSpace((w + s)[0]);
      assert (w + s)[1..] == w[1..] + s;
      assert TrimStart(w + s) == TrimStart(w[1..] + s);
      TrimStartDropsLeadingSpace(w[1..], s);
    } else {
      assert w + s == s;
    }
  }

  /** `s.split(c)` for a one-character separator: the pieces between the
      separators, empty pieces included, so there is always at least one. */
  function Split(s: string, c: char): (r: seq<string>)
    ensures |r| > 0
    ensures forall k :: 0 <= k < |r| ==> c !in r[k]
    decreases |s|
  {
    if s == [] then [""]
    else
      var rest := Split(s[1..], c);
      if s[0] == c then [""] + rest
      else [[s[0]] + rest[0]] + rest[1..]
  }

  /** `parts.join(sep)`. */
  function Join(parts: seq<string>, sep: string): string
    decreases |parts|
  {
    if parts == [] then ""
    else if |parts| == 1 then parts[0]
    else parts[0] + sep + Join(parts[1..], sep)
  }

  /** Prefixing the first piece prefixes the joined text. */
  lemma JoinPrefixFirst(ps: seq<string>, x: string, sep: string)
    requires |ps| > 0
    ensures Join([x + ps[0]] + ps[1..], sep) == x + Join(ps, sep)
  {
    var qs := [x + ps[0]] + ps[1..];
    if |ps| > 1 {
      assert qs[1..] == ps[1..];
    }
  }

  /** A string without the separator is one piece. */
  lemma {:induction false} SplitNoSeparator(s: string, c: char)
    requires c !in s
    ensures Split(s, c) == [s]
    decreases |s|
  {
    if s != [] {
      SplitNoSeparator(s[1..], c);
      assert [s[0]] + s[1..] == s;
    }
  }

  /** Splitting stops at the first separator. */
  lemma {:induction false} SplitAtFirst(a: string, c: char, b: string)
    requires c !in a
    ensures Split(a + [c] + b, c) == [a] + Split(b, c)
    decreases |a|
  {
    var s := a + [c] + b;
    if a == [] {
      assert s[0] == c && s[1..] == b;
    } else {
      assert s[1..] == a[1..] + [c] + b;
      SplitAtFirst(a[1..], c, b);
      assert [a[0]] + a[1..] == a;
    }
  }

  /** Joining pieces that contain no separator and splitting again gives
      the pieces back. */
  lemma {:induction false} SplitJoin(parts: seq<string>, c: char)
    requires |parts| > 0
    requires forall k :: 0 <= k < |parts| ==> c !in parts[k]
    ensures Split(Join(parts, [c]), c) == parts
    decreases |parts|
  {
    if |parts| == 1 {
      SplitNoSeparator(parts[0], c);
    } else {
      SplitJoin(parts[1..], c);
      SplitAtFirst(parts[0], c, Join(parts[1..], [c]));
      assert [parts[0]] + parts[1..] == parts;
    }
  }

  /** `s.replace(/\s+/g, '-')`: every maximal run of whitespace becomes one dash. */
  function DashSpaceRuns(s: string): (r: string)
    ensures NoSpace(r)
    ensures NoSpace(s) ==> r == s
    decreases |s|
  {
    if s == [] then []
    else if IsSpace(s[0]) then "-" + DashSpaceRuns(TrimStart(s))
    else [s[0]] + DashSpaceRuns(s[1..])
  }

  /** The `/\s+/g` rule: a maximal whitespace run after whitespace-free
      text becomes exactly one `-`, and the scan goes on after the run. */
  lemma DashSpaceRunsRun(a: string, w: string, b: string)
    requires NoSpace(a) && w != [] && AllSpace(w) && (b == [] || !IsSpace(b[0]))
    ensures DashSpaceRuns(a + w + b) == a + "-" + DashSpaceRuns(b)
  {
    var t := w + b;
    AppendAssoc(a, w, b);
    DashSpaceRunsKeepsPrefix(a, t);
    DashSpaceRunsLeadingRun(w, b);
    AppendAssoc(a, "-", DashSpaceRuns(b));
  }

  /** Whitespace-free text passes through unchanged, whatever follows it. */
  lemma {:induction false} DashSpaceRunsKeepsPrefix(a: string, t: string)
    requires NoSpace(a)
    ensures DashSpaceRuns(a + t) == a + DashSpaceRuns(t)
    decreases |a|
  {
    if a == [] {
      assert a + t == t;
    } else {
      var c, a' := a[0], a[1..];
      assert NoSpace(a') && !IsSpace(c) by {
        forall i | 0 <= i < |a'| ensures !IsSpace(a'[i]) {
          assert a'[i] == a[i + 1];
        }
      }
      var x := a' + t;
      assert a == [c] + a';
      assert a + t == [c] + x by {
        AppendAssoc([c], a', t);
      }
      DashSpaceRunsCons(c, x);
      DashSpaceRunsKeepsPrefix(a', t);
      AppendAssoc([c], a', DashSpaceRuns(t));
    }
  }

  lemma AppendAssoc(x: string, y: string, z: string)
    ensures x + y + z == x + (y + z)
  {
  }

  /** A character that is not whitespace is copied through. */
  lemma DashSpaceRunsCons(c: char, t: string)
    requires !IsSpace(c)
    ensures DashSpaceRuns([c] + t) == [c] + DashSpaceRuns(t)
  {
    assert ([c] + t)[0] == c && ([c] + t)[1..] == t;
  }

  /** A leading whitespace run becomes one `-`. */
  lemma DashSpaceRunsLeadingRun(w: string, b: string)
    requires w != [] && AllSpace(w) && (b == [] || !IsSpace(b[0]))
    ensures DashSpaceRuns(w + b) == "-" + DashSpaceRuns(b)
  {
    assert (w + b)[0] == w[0];
    TrimSpaceRun(w, b);
    DashSpaceRunsAtSpace(w + b);
  }

  lemma DashSpaceRunsAtSpace(s: string)
    requires s != [] && IsSpace(s[0])
    ensures DashSpaceRuns(s) == "-" + DashSpaceRuns(TrimStart(s))
  {
  }

  lemma DashSpaceRunsAtOther(s: string)
    requires s != [] && !IsSpace(s[0])
    ensures DashSpaceRuns(s) == [s[0]] + DashSpaceRuns(s[1..])
  {
  }

  /** Trimming a whitespace run off a text that starts without whitespace
      leaves that text. */
  lemma {:induction false} TrimSpaceRun(w: string, b: string)
    requires AllSpace(w) && (b == [] || !IsSpace(b[0]))
    ensures TrimStart(w + b) == b
    decreases |w|
  {
    if w == [] {
      assert w + b == b;
    } else {
      assert (w + b)[1..] == w[1..] + b;
      TrimSpaceRun(w[1..], b);
    }
  }

  /** `s.toLowerCase().replace(/\s+/g, '-')`: the id a new category or template gets. */
  function Slug(s: string): (r: string)
    ensures NoSpace(r)
    ensures forall i :: 0 <= i < |r| ==> !('A' <= r[i] <= 'Z')
  {
    SlugChars(Lower(s));
    DashSpaceRuns(Lower(s))
  }

  /** Dashing whitespace runs introduces no upper-case letter. */
  lemma {:induction false} SlugChars(s: string)
    requires forall i :: 0 <= i < |s| ==> !('A' <= s[i] <= 'Z')
    ensures forall i :: 0 <= i < |DashSpaceRuns(s)| ==> !('A' <= DashSpaceRuns(s)[i] <= 'Z')
    decreases |s|
  {
    if s != [] {
      if IsSpace(s[0]) {
        SlugChars(TrimStart(s));
      } else {
        SlugChars(s[1..]);
      }
    }
  }

  function DigitChar(d: nat): (c: char)
    requires d < 10
    ensures '0' <= c <= '9'
  {
    ('0' as int + d) as char
  }

  /** `String(n)` (and template-literal interpolation) of a non-negative integer. */
  function NatToString(n: nat): (r: string)
    ensures |r| > 0 && forall i :: 0 <= i < |r| ==> '0' <= r[i] <= '9'
  {
    if n < 10 then [DigitChar(n)] else NatToString(n / 10) + [DigitChar(n % 10)]
  }

  /** `String(n)` of any integer. */
  function IntToString(n: int): (r: string)
    ensures |r| > 0
    ensures n >= 0 ==> r == NatToString(n)
    ensures n < 0 ==> r == "-" + NatToString(-n)
  {
    if n >= 0 then NatToString(n) else "-" + NatToString(-n)
  }

  /** `/\S+@\S+\.\S+/.test(s)`: somewhere in `s` a non-space character,
      `@`, a run of non-space characters, `.` and a non-space character
      follow one another. */
  predicate EmailShaped(s: string) {
    exists at, dot :: 0 < at && at + 1 < dot && dot + 1 < |s| && s[at] == '@' && s[dot] == '.'
      && !IsSpace(s[at - 1]) && !IsSpace(s[dot + 1]) && NoSpace(s[at + 1..dot])
  }

  /** The shortest strings the pattern accepts have five characters, so an
      empty string never passes. */
  lemma EmailShapedLength(s: string)
    requires EmailShaped(s)
    ensures |s| >= 5 && '@' in s && '.' in s
  {
  }

  /** `a@b.c` passes. */
  lemma EmailShapedExample()
    ensures EmailShaped("a@b.c")
  {
    var s := "a@b.c";
    assert NoSpace(s[2..3]) by { assert s[2..3] == "b"; }
    assert !IsSpace(s[0]) && !IsSpace(s[4]);
    assert s[1] == '@' && s[3] == '.';
  }

  /** `a@b`, without a dot after the `@`, and `a@.c`, with nothing between
      the `@` and the dot, do not pass. */
  lemma EmailShapedCounterexamples()
    ensures !EmailShaped("a@b") && !EmailShaped("a@.c")
  {
  }
}

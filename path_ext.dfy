/** The string and path operations `mlabimg` applies to a file name:
    Python's `str.rfind`, `os.path.splitext` on POSIX paths (separator `/`,
    extension separator `.`), `os.path.basename`, and `str.lower`. */
module PathExt {

  /** Index of the last `c` in `s`, or -1 when `s` has none (`s.rfind(c)`). */
  function RFind(s: string, c: char): (r: int)
    ensures -1 <= r < |s|
    ensures r >= 0 ==> s[r] == c
    ensures forall k :: r < k < |s| ==> s[k] != c
  {
    if |s| == 0 then -1
    else if s[|s| - 1] == c then |s| - 1
    else RFind(s[..|s| - 1], c)
  }

  /** The three properties of RFind's contract pin its value down. */
  lemma RFindUnique(s: string, c: char, r: int)
    requires -1 <= r < |s|
    requires r >= 0 ==> s[r] == c
    requires forall k :: r < k < |s| ==> s[k] != c
    ensures r == RFind(s, c)
  {
  }

  predicate AllDots(s: string) {
    forall k :: 0 <= k < |s| ==> s[k] == '.'
  }

  /** `os.path.splitext(p)`: the extension runs from the last `.` that comes
      after the last `/`, unless everything between that `/` and that `.` is
      a dot (the leading dots of a file name do not start an extension). */
  function SplitExt(p: string): (r: (string, string))
    ensures r.0 + r.1 == p
  {
    var sepIndex := RFind(p, '/');
    var dotIndex := RFind(p, '.');
    if dotIndex > sepIndex && !AllDots(p[sepIndex + 1..dotIndex]) then
      (p[..dotIndex], p[dotIndex..])
    else
      (p, [])
  }

  /** A non-empty extension is one dot followed by neither dots nor slashes. */
  lemma ExtensionShape(p: string)
    ensures var e := SplitExt(p).1;
      e == [] || (e[0] == '.' && forall k :: 0 < k < |e| ==> e[k] != '.' && e[k] != '/')
  {
    var si := RFind(p, '/');
    var di := RFind(p, '.');
    var e := SplitExt(p).1;
    if e != [] {
      assert e == p[di..];
      forall k | 0 < k < |e|
        ensures e[k] != '.' && e[k] != '/'
      {
        assert e[k] == p[di + k];
      }
    }
  }

  /** `os.path.basename(p)`: what follows the last `/`. */
  function Basename(p: string): (b: string)
    ensures '/' !in b
    ensures |b| <= |p| && p[|p| - |b|..] == b
    ensures |b| == |p| || p[|p| - |b| - 1] == '/'
  {
    p[RFind(p, '/') + 1..]
  }

  /** The number of dots a string starts with. */
  function LeadingDots(s: string): (n: nat)
    ensures n <= |s|
    ensures forall k :: 0 <= k < n ==> s[k] == '.'
    ensures n < |s| ==> s[n] != '.'
  {
    if |s| > 0 && s[0] == '.' then 1 + LeadingDots(s[1..]) else 0
  }

  /** A path has an extension exactly when its file name, with its leading
      dots removed, still contains a dot. */
  lemma HasExtensionIff(p: string)
    ensures SplitExt(p).1 != [] <==> '.' in Basename(p)[LeadingDots(Basename(p))..]
  {
    if SplitExt(p).1 != [] {
      ExtensionHasDotAfterLeading(p);
    } else if '.' in Basename(p)[LeadingDots(Basename(p))..] {
      DotAfterLeadingHasExtension(p);
    }
  }

  lemma ExtensionHasDotAfterLeading(p: string)
    requires SplitExt(p).1 != []
    ensures '.' in Basename(p)[LeadingDots(Basename(p))..]
  {
    var si := RFind(p, '/');
    var di := RFind(p, '.');
    var b := Basename(p);
    var m := LeadingDots(b);
    assert b == p[si + 1..];
    assert !AllDots(p[si + 1..di]);
    var k :| 0 <= k < di - si - 1 && p[si + 1..di][k] != '.';
    assert b[k] != '.';
    assert m <= k;
    assert b[m..][di - si - 1 - m] == '.';
  }

  lemma DotAfterLeadingHasExtension(p: string)
    requires '.' in Basename(p)[LeadingDots(Basename(p))..]
    ensures SplitExt(p).1 != []
  {
    var si := RFind(p, '/');
    NameHasDotPastLeadingDots(p, si, Basename(p));
  }

  lemma NameHasDotPastLeadingDots(p: string, si: int, b: string)
    requires si == RFind(p, '/') && b == p[si + 1..]
    requires '.' in b[LeadingDots(b)..]
    ensures SplitExt(p).1 != []
  {
    var m := LeadingDots(b);
    var rest := b[m..];
    var q :| 0 <= q < |rest| && rest[q] == '.';
    assert p[si + 1 + m + q] == rest[q];
    assert p[si + 1 + m] == b[m] != '.';
    DotPastLeadingDots(p, si, m, si + 1 + m + q);
  }

  /** The index form: after the last slash come `m` dots, then a non-dot,
      and a dot at `j` further on. */
  lemma DotPastLeadingDots(p: string, si: int, m: nat, j: int)
    requires si == RFind(p, '/')
    requires si + 1 + m <= j < |p| && p[j] == '.' && p[si + 1 + m] != '.'
    ensures SplitExt(p).1 != []
  {
    var di := RFind(p, '.');
    assert si + 1 + m < j <= di;
    var w := p[si + 1..di];
    assert w[m] != '.';
    assert !AllDots(w);
    assert SplitExt(p) == (p[..di], p[di..]);
  }

  /** The extension is the file name's last dot and what follows it. */
  lemma ExtensionInBasename(p: string)
    requires SplitExt(p).1 != []
    ensures |SplitExt(p).1| <= |Basename(p)|
    ensures SplitExt(p).1 == Basename(p)[RFind(Basename(p), '.')..]
  {
    var si := RFind(p, '/');
    var di := RFind(p, '.');
    var b := Basename(p);
    assert b == p[si + 1..];
    assert b[di - si - 1] == '.';
    RFindUnique(b, '.', di - si - 1);
  }

  /** A path without any dot has no extension. */
  lemma NoDotNoExtension(p: string)
    requires '.' !in p
    ensures SplitExt(p) == (p, [])
  {
  }

  predicate IsUpper(ch: char) {
    'A' <= ch <= 'Z'
  }

  /** `ch.lower()` for ASCII letters; every other character is kept. */
  function LowerChar(ch: char): (r: char)
    ensures !IsUpper(r)
    ensures !IsUpper(ch) ==> r == ch
    ensures IsUpper(ch) ==> 'a' <= r <= 'z' && r as int == ch as int + 32
  {
    if IsUpper(ch) then (ch as int - 'A' as int + 'a' as int) as char else ch
  }

  /** `s.lower()`, character by character. */
  function Lower(s: string): (r: string)
    ensures |r| == |s|
  {
    seq(|s|, k requires 0 <= k < |s| => LowerChar(s[k]))
  }

  /** `s.lower()` has no capitals, keeps every other character, and turns
      each capital into its small letter. */
  lemma LowerFolds(s: string)
    ensures |Lower(s)| == |s|
    ensures forall k :: 0 <= k < |s| ==> !IsUpper(Lower(s)[k])
    ensures forall k :: 0 <= k < |s| && !IsUpper(s[k]) ==> Lower(s)[k] == s[k]
    ensures forall k :: 0 <= k < |s| && IsUpper(s[k]) ==> Lower(s)[k] as int == s[k] as int + 32
  {
  }

  /** Two characters lower to the same one exactly when they are equal or
      one is the capital of the other. */
  lemma CaseFold(a: char, b: char)
    ensures LowerChar(a) == LowerChar(b) <==>
      a == b || (IsUpper(a) && b as int == a as int + 32) || (IsUpper(b) && a as int == b as int + 32)
  {
  }

  /** Lowering twice is lowering once, and a lowered string has no capitals. */
  lemma LowerIdempotent(s: string)
    ensures Lower(Lower(s)) == Lower(s)
    ensures forall k :: 0 <= k < |s| ==> !IsUpper(Lower(s)[k])
  {
  }

  /** Lowering commutes with taking a slice. */
  lemma LowerSlice(s: string, i: nat, j: nat)
    requires i <= j <= |s|
    ensures Lower(s[i..j]) == Lower(s)[i..j]
  {
  }

  /** Lowering moves no character that is not a letter. */
  lemma RFindLower(s: string, c: char)
    requires !IsUpper(c) && !('a' <= c <= 'z')
    ensures RFind(Lower(s), c) == RFind(s, c)
  {
    RFindUnique(Lower(s), c, RFind(s, c));
  }

  /** Lowering keeps a run of dots a run of dots, and nothing else becomes one. */
  lemma AllDotsLower(s: string)
    ensures AllDots(Lower(s)) <==> AllDots(s)
  {
    if !AllDots(s) {
      var k :| 0 <= k < |s| && s[k] != '.';
      assert Lower(s)[k] != '.';
    }
  }

  /** Lowering a path lowers its extension and nothing else moves. */
  lemma SplitExtLower(p: string)
    ensures SplitExt(Lower(p)).1 == Lower(SplitExt(p).1)
  {
    var lp := Lower(p);
    RFindLower(p, '/');
    RFindLower(p, '.');
    var si := RFind(p, '/');
    var di := RFind(p, '.');
    if di > si {
      LowerSlice(p, si + 1, di);
      AllDotsLower(p[si + 1..di]);
      LowerSlice(p, di, |p|);
      assert p[di..|p|] == p[di..];
      assert lp[di..|p|] == lp[di..];
      if AllDots(p[si + 1..di]) {
        assert SplitExt(p).1 == [];
        assert SplitExt(lp).1 == [];
      } else {
        assert SplitExt(p).1 == p[di..];
        assert SplitExt(lp).1 == lp[di..];
      }
    } else {
      assert SplitExt(p).1 == [];
      assert SplitExt(lp).1 == [];
    }
  }
}

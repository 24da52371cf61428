/** The two string primitives the widget relies on: `String.prototype.trim`
    (used on the typed location) and lower-casing (used to match the
    provider's condition text against a fixed vocabulary). */
module Text {

  /** ECMAScript's WhiteSpace and LineTerminator code points: exactly the
      characters `trim` strips from both ends of a string. */
  predicate IsSpace(c: char) {
    || c == '\t' || c == '\n' || c == '\U{0B}' || c == '\U{0C}' || c == '\r'
    || c == ' ' || c == '\U{A0}' || c == '\U{1680}'
    || ('\U{2000}' <= c <= '\U{200A}')
    || c == '\U{2028}' || c == '\U{2029}' || c == '\U{202F}' || c == '\U{205F}'
    || c == '\U{3000}' || c == '\U{FEFF}'
  }

  /** Every character of `s` is white space (vacuously so for ""). */
  predicate AllSpace(s: string) {
    forall i :: 0 <= i < |s| ==> IsSpace(s[i])
  }

  /** The characters `s[a..b]` are all white space. */
  predicate SpaceBetween(s: string, a: int, b: int)
    requires 0 <= a <= b <= |s|
  {
    forall i :: a <= i < b ==> IsSpace(s[i])
  }

  /** `s[lo..hi]` is what trimming leaves of `s`: everything around it is
      white space and its own two ends are not. */
  predicate TrimmedAt(s: string, lo: int, hi: int) {
    && 0 <= lo <= hi <= |s|
    && SpaceBetween(s, 0, lo)
    && SpaceBetween(s, hi, |s|)
    && (lo < hi ==> !IsSpace(s[lo]) && !IsSpace(s[hi - 1]))
  }

  /** The reference definition `Trim` is measured against. */
  ghost predicate IsTrimOf(s: string, r: string) {
    exists lo, hi :: TrimmedAt(s, lo, hi) && s[lo..hi] == r
  }

  /** Index of the first non-space character at or after `i` (`|s|` when
      there is none). */
  function SkipLeading(s: string, i: nat): (lo: nat)
    requires i <= |s|
    ensures i <= lo <= |s|
    ensures SpaceBetween(s, i, lo)
    ensures lo < |s| ==> !IsSpace(s[lo])
    decreases |s| - i
  {
    if i < |s| && IsSpace(s[i]) then SkipLeading(s, i + 1) else i
  }

  /** Index just past the last non-space character of `s[lo..j]` (`lo` when
      there is none). */
  function SkipTrailing(s: string, lo: nat, j: nat): (hi: nat)
    requires lo <= j <= |s|
    ensures lo <= hi <= j
    ensures SpaceBetween(s, hi, j)
    ensures lo < hi ==> !IsSpace(s[hi - 1])
  {
    if lo < j && IsSpace(s[j - 1]) then SkipTrailing(s, lo, j - 1) else j
  }

  /** `String.prototype.trim`. */
  function Trim(s: string): (r: string)
    ensures IsTrimOf(s, r)
    ensures r == [] <==> AllSpace(s)
  {
    var lo := SkipLeading(s, 0);
    var hi := SkipTrailing(s, lo, |s|);
    assert TrimmedAt(s, lo, hi);
    s[lo..hi]
  }

  /** The trimmed form of a string is unique: `Trim` is the only function
      meeting the reference definition. */
  lemma TrimOfIsUnique(s: string, r1: string, r2: string)
    requires IsTrimOf(s, r1) && IsTrimOf(s, r2)
    ensures r1 == r2
  {
    var lo1, hi1 :| TrimmedAt(s, lo1, hi1) && s[lo1..hi1] == r1;
    var lo2, hi2 :| TrimmedAt(s, lo2, hi2) && s[lo2..hi2] == r2;
    TrimmedAtIsUnique(s, lo1, hi1, lo2, hi2);
  }

  lemma TrimmedAtIsUnique(s: string, lo1: int, hi1: int, lo2: int, hi2: int)
    requires TrimmedAt(s, lo1, hi1) && TrimmedAt(s, lo2, hi2)
    ensures s[lo1..hi1] == s[lo2..hi2]
  {
    if lo1 < hi1 || lo2 < hi2 {
      assert lo1 < hi1 && lo2 < hi2;
      assert lo1 == lo2 && hi1 == hi2;
    }
  }

  /** Trimming twice is trimming once. */
  lemma TrimIdempotent(s: string)
    ensures Trim(Trim(s)) == Trim(s)
  {
    var r := Trim(s);
    if r != [] {
      assert TrimmedAt(r, 0, |r|) && r[0..|r|] == r;
      TrimOfIsUnique(r, Trim(r), r);
    }
  }

  /** ASCII lower-casing of one character. */
  function LowerChar(c: char): (d: char)
    ensures 'A' <= c <= 'Z' ==> 'a' <= d <= 'z' && d as int == c as int + 32
    ensures !('A' <= c <= 'Z') ==> d == c
  {
    if 'A' <= c <= 'Z' then (c as int + 32) as char else c
  }

  /** ASCII lower-casing of a string, character by character. */
  function Lower(s: string): (r: string)
    ensures |r| == |s|
    ensures IsLower(r) && MatchesIgnoringCase(s, r)
  {
    seq(|s|, i requires 0 <= i < |s| => LowerChar(s[i]))
  }

  /** A string is lower case when lower-casing leaves it unchanged. */
  predicate IsLower(s: string) {
    forall i :: 0 <= i < |s| ==> !('A' <= s[i] <= 'Z')
  }

  /** `d` spells `k` up to case: position by position the characters agree,
      or `k` has a lower-case letter where `d` has its capital. */
  predicate MatchesIgnoringCase(d: string, k: string) {
    && |d| == |k|
    && forall i :: 0 <= i < |d| ==>
         d[i] == k[i] || ('a' <= k[i] <= 'z' && d[i] as int == k[i] as int - 32)
  }

  /** Against a lower-case key, matching up to case is comparing the
      lower-case form. */
  lemma MatchesIffLower(d: string, k: string)
    requires IsLower(k)
    ensures MatchesIgnoringCase(d, k) <==> Lower(d) == k
  {
    if MatchesIgnoringCase(d, k) {
      forall i | 0 <= i < |d| ensures Lower(d)[i] == k[i] {
        assert d[i] == k[i] || ('a' <= k[i] <= 'z' && d[i] as int == k[i] as int - 32);
      }
    }
  }

  /** Only one lower-case string matches `s` up to case: the one `Lower`
      computes. */
  lemma LowerIsUnique(s: string, r: string)
    requires IsLower(r) && MatchesIgnoringCase(s, r)
    ensures r == Lower(s)
  {
    forall i | 0 <= i < |s| ensures r[i] == Lower(s)[i] {
      assert s[i] == r[i] || ('a' <= r[i] <= 'z' && s[i] as int == r[i] as int - 32);
    }
  }

  lemma LowerIsLower(s: string)
    ensures IsLower(Lower(s))
    ensures IsLower(s) <==> Lower(s) == s
  {
    if IsLower(s) {
      assert Lower(s) == s;
    }
    if Lower(s) == s {
      forall i | 0 <= i < |s| ensures !('A' <= s[i] <= 'Z') {
        assert Lower(s)[i] == s[i];
      }
    }
  }
}

/** The few Python string operations the pipelines rely on, on `string` (a `seq<char>`). */
module PyText {

  /** Python's `str.isspace` for one character (every code point Python counts as whitespace). */
  predicate IsSpace(c: char) {
    var n := c as int;
    (9 <= n <= 13) || (0x1c <= n <= 0x20) || n == 0x85 || n == 0xa0 || n == 0x1680
    || (0x2000 <= n <= 0x200a) || n == 0x2028 || n == 0x2029 || n == 0x202f || n == 0x205f
    || n == 0x3000
  }

  predicate AllSpace(s: string) {
    forall i :: 0 <= i < |s| ==> IsSpace(s[i])
  }

  /** `s.lstrip()`: the leading whitespace removed. */
  function LStrip(s: string): string {
    if |s| > 0 && IsSpace(s[0]) then LStrip(s[1..]) else s
  }

  /** `s.rstrip()`: the trailing whitespace removed. */
  function RStrip(s: string): string {
    if |s| > 0 && IsSpace(s[|s| - 1]) then RStrip(s[..|s| - 1]) else s
  }

  /** `lstrip` drops a whitespace prefix and stops at the first non-whitespace character. */
  lemma {:induction false} LStripDropsLeadingSpace(s: string)
    ensures var r := LStrip(s);
      |r| <= |s| && r == s[|s| - |r|..] && AllSpace(s[..|s| - |r|]) && (r == [] || !IsSpace(r[0]))
    decreases |s|
  {
    if |s| > 0 && IsSpace(s[0]) {
      LStripDropsLeadingSpace(s[1..]);
      var r := LStrip(s);
      assert s[1..][..|s| - 1 - |r|] == s[1..|s| - |r|];
      assert forall i :: 1 <= i < |s| - |r| ==> s[i] == s[1..|s| - |r|][i - 1];
    }
  }

  /** `rstrip` drops a whitespace suffix and stops at the last non-whitespace character. */
  lemma {:induction false} RStripDropsTrailingSpace(s: string)
    ensures var r := RStrip(s);
      |r| <= |s| && r == s[..|r|] && AllSpace(s[|r|..]) && (r == [] || !IsSpace(r[|r| - 1]))
    decreases |s|
  {
    if |s| > 0 && IsSpace(s[|s| - 1]) {
      var t := s[..|s| - 1];
      RStripDropsTrailingSpace(t);
      var r := RStrip(t);
      InitSlices(s, |r|);
      AllSpaceSnoc(t[|r|..], s[|s| - 1]);
    }
  }

  lemma InitSlices<T>(s: seq<T>, n: nat)
    requires n < |s|
    ensures s[..|s| - 1][..n] == s[..n]
    ensures s[n..] == s[..|s| - 1][n..] + [s[|s| - 1]]
  {
  }

  lemma AllSpaceSnoc(u: string, c: char)
    requires AllSpace(u) && IsSpace(c)
    ensures AllSpace(u + [c])
  {
    assert forall i :: 0 <= i < |u| ==> (u + [c])[i] == u[i];
  }

  /** `s.strip()`. */
  function Strip(s: string): string {
    LStrip(RStrip(s))
  }

  /** `s.strip()` is empty (falsy) exactly when `s` is all whitespace. */
  lemma StripEmptyIffAllSpace(s: string)
    ensures Strip(s) == [] <==> AllSpace(s)
  {
    var r := RStrip(s);
    RStripDropsTrailingSpace(s);
    LStripDropsLeadingSpace(r);
    if Strip(s) == [] {
      assert r == [];
      assert s[|r|..] == s;
    }
  }

  /** `s.strip().startswith([c])` for a non-whitespace `c`: the first non-whitespace character of `s` is `c`. */
  predicate StrippedStartsWith(s: string, c: char) {
    var t := Strip(s);
    |t| > 0 && t[0] == c
  }

  /** The first character that survives `strip()` is the first non-whitespace character. */
  lemma StripStartsAtFirstNonSpace(s: string, k: nat)
    requires k < |s| && AllSpace(s[..k]) && !IsSpace(s[k])
    ensures |Strip(s)| > 0 && Strip(s)[0] == s[k]
  {
    var r := RStrip(s);
    RStripDropsTrailingSpace(s);
    LStripDropsLeadingSpace(r);
    assert forall i :: |r| <= i < |s| ==> s[i] == s[|r|..][i - |r|];
    assert k < |r|;
    var t := LStrip(r);
    var m := |r| - |t|;
    assert r[..k] == s[..k];
    FirstNonSpaceUnique(r, m, k);
  }

  /** Two positions that each end a whitespace prefix at a non-whitespace character are the same. */
  lemma FirstNonSpaceUnique(r: string, m: nat, k: nat)
    requires m <= |r| && AllSpace(r[..m]) && (m == |r| || !IsSpace(r[m]))
    requires k < |r| && AllSpace(r[..k]) && !IsSpace(r[k])
    ensures m == k
  {
    assert forall i :: 0 <= i < k ==> r[..k][i] == r[i];
    assert forall i :: 0 <= i < m ==> r[..m][i] == r[i];
  }

  lemma StrippedStartsWithIff(s: string, c: char)
    requires !IsSpace(c)
    ensures StrippedStartsWith(s, c) <==> exists k :: 0 <= k < |s| && AllSpace(s[..k]) && s[k] == c
  {
    var r := RStrip(s);
    var t := LStrip(r);
    RStripDropsTrailingSpace(s);
    LStripDropsLeadingSpace(r);
    var m := |r| - |t|;
    if StrippedStartsWith(s, c) {
      assert s[m] == r[m] == t[0];
      assert s[..m] == r[..m];
    }
    if exists k :: 0 <= k < |s| && AllSpace(s[..k]) && s[k] == c {
      var k :| 0 <= k < |s| && AllSpace(s[..k]) && s[k] == c;
      StripStartsAtFirstNonSpace(s, k);
    }
  }

  /** `s.find(c)`: the first index of `c` in `s`, or -1. */
  function Find(s: string, c: char): (r: int)
    ensures -1 <= r < |s|
    ensures r == -1 <==> c !in s
    ensures r >= 0 ==> s[r] == c && c !in s[..r]
  {
    if |s| == 0 then -1
    else if s[0] == c then 0
    else
      var k := Find(s[1..], c);
      assert s[1..][..if k < 0 then 0 else k] == s[1..if k < 0 then 1 else k + 1];
      if k == -1 then -1 else k + 1
  }

  /** `s.rfind(c)`: the last index of `c` in `s`, or -1. */
  function RFind(s: string, c: char): (r: int)
    ensures -1 <= r < |s|
    ensures r == -1 <==> c !in s
    ensures r >= 0 ==> s[r] == c && c !in s[r + 1..]
  {
    if |s| == 0 then -1
    else if s[|s| - 1] == c then |s| - 1
    else
      var k := RFind(s[..|s| - 1], c);
      assert k >= 0 ==> s[k + 1..] == s[..|s| - 1][k + 1..] + [s[|s| - 1]];
      k
  }

  /** `s[a:b]` for in-range bounds: empty when `b <= a`. */
  function Slice(s: string, a: nat, b: nat): string
    requires a <= |s| && b <= |s|
  {
    if b <= a then [] else s[a..b]
  }

  /** The decimal digit character of `d`. */
  function Digit(d: nat): char
    requires d < 10
  {
    "0123456789"[d]
  }

  predicate IsDigit(c: char) {
    '0' <= c <= '9'
  }

  function DigitValue(c: char): nat
    requires IsDigit(c)
  {
    c as int - '0' as int
  }

  /** Python's `str(n)` for a non-negative integer. */
  function NatToString(n: nat): (r: string)
    ensures |r| > 0 && forall i :: 0 <= i < |r| ==> IsDigit(r[i])
    ensures r[0] == '0' ==> n == 0
  {
    if n < 10 then [Digit(n)] else NatToString(n / 10) + [Digit(n % 10)]
  }

  /** The number a string of decimal digits denotes (`int(s)`). */
  function DecimalValue(s: string): nat
    requires forall i :: 0 <= i < |s| ==> IsDigit(s[i])
  {
    if |s| == 0 then 0 else 10 * DecimalValue(s[..|s| - 1]) + DigitValue(s[|s| - 1])
  }

  /** `int(str(n)) == n`: the rendering of an identifier loses nothing. */
  lemma {:induction false} NatToStringRoundTrip(n: nat)
    ensures DecimalValue(NatToString(n)) == n
  {
    if n >= 10 {
      NatToStringRoundTrip(n / 10);
      var s := NatToString(n);
      assert s[..|s| - 1] == NatToString(n / 10);
    }
  }

  /** Distinct numbers render differently. */
  lemma NatToStringInjective(m: nat, n: nat)
    requires NatToString(m) == NatToString(n)
    ensures m == n
  {
    NatToStringRoundTrip(m);
    NatToStringRoundTrip(n);
  }

  /** The quote Python's `repr` puts around a string: `"` when the string holds `'` and no `"`,
      `'` otherwise. */
  function ReprQuote(s: string): (q: char)
    ensures q == '"' <==> '\'' in s && '"' !in s
    ensures q == '"' || q == '\''
  {
    if '\'' in s && '"' !in s then '"' else '\''
  }

  /** The characters `repr` writes as they are, inside quotes `q`: everything except the backslash,
      the quote itself and the Latin-1 characters Python does not count as printable (the C0 and C1
      controls, DEL, the no-break space and the soft hyphen). */
  predicate KeptInRepr(c: char, q: char) {
    var n := c as int;
    c != '\\' && c != q && !(n < 0x20) && !(0x7f <= n <= 0xa0) && n != 0xad
  }

  function HexDigit(d: nat): (r: char)
    requires d < 16
    ensures '0' <= r <= '9' || 'a' <= r <= 'f'
  {
    if d < 10 then Digit(d) else "abcdef"[d - 10]
  }

  /** How `repr` writes one character inside quotes `q`. */
  function ReprChar(c: char, q: char): (r: string)
    ensures |r| > 0
    ensures KeptInRepr(c, q) ==> r == [c]
    ensures !KeptInRepr(c, q) ==> |r| >= 2 && r[0] == '\\'
  {
    var n := c as int;
    if KeptInRepr(c, q) then [c]
    else if c == '\\' || c == q then ['\\', c]
    else if c == '\n' then "\\n"
    else if c == '\r' then "\\r"
    else if c == '\t' then "\\t"
    else ['\\', 'x', HexDigit(n / 16 % 16), HexDigit(n % 16)]
  }

  function ReprBody(s: string, q: char): string {
    if |s| == 0 then "" else ReprBody(s[..|s| - 1], q) + ReprChar(s[|s| - 1], q)
  }

  /** Python's `repr(s)` for a string. */
  function Repr(s: string): (r: string)
    ensures |r| >= 2 && r[0] == ReprQuote(s) && r[|r| - 1] == ReprQuote(s)
  {
    [ReprQuote(s)] + ReprBody(s, ReprQuote(s)) + [ReprQuote(s)]
  }

  /** A string of characters `repr` keeps comes back verbatim between the quotes. */
  lemma {:induction false} ReprBodyKept(s: string, q: char)
    requires forall i :: 0 <= i < |s| ==> KeptInRepr(s[i], q)
    ensures ReprBody(s, q) == s
  {
    if |s| > 0 {
      var init := s[..|s| - 1];
      assert forall i :: 0 <= i < |init| ==> init[i] == s[i];
      ReprBodyKept(init, q);
      assert s == init + [s[|s| - 1]];
    }
  }

  /** Every character escaped by `repr` starts with a backslash, so a quote never appears bare
      between the quotes: the body holds `q` only right after a backslash. */
  lemma {:induction false} ReprBodyQuotesEscaped(s: string, q: char, j: nat)
    requires q == '\'' || q == '"'
    requires j < |ReprBody(s, q)| && ReprBody(s, q)[j] == q
    ensures j > 0 && ReprBody(s, q)[j - 1] == '\\'
    decreases |s|
  {
    var init := s[..|s| - 1];
    var front, last := ReprBody(init, q), ReprChar(s[|s| - 1], q);
    assert ReprBody(s, q) == front + last;
    if j < |front| {
      ReprBodyQuotesEscaped(init, q, j);
    } else {
      ReprCharQuotes(s[|s| - 1], q);
      assert last[j - |front|] == q;
    }
  }

  /** Inside the writing of one character, a quote can only come second, after a backslash. */
  lemma ReprCharQuotes(c: char, q: char)
    requires q == '\'' || q == '"'
    ensures forall m :: 0 <= m < |ReprChar(c, q)| && ReprChar(c, q)[m] == q ==> m == 1 && ReprChar(c, q)[0] == '\\'
  {
    var n := c as int;
    if !KeptInRepr(c, q) && c != '\\' && c != q && c != '\n' && c != '\r' && c != '\t' {
      assert ReprChar(c, q) == ['\\', 'x', HexDigit(n / 16 % 16), HexDigit(n % 16)];
    }
  }

  /** A string with no quote, no backslash and only printable Latin-1 characters is written in
      single quotes as it is. */
  lemma ReprPlain(s: string)
    requires '\'' !in s
    requires forall i :: 0 <= i < |s| ==> KeptInRepr(s[i], '\'')
    ensures Repr(s) == "'" + s + "'"
  {
    ReprBodyKept(s, '\'');
  }

  /** A string holding `'` but no `"` is written in double quotes, its apostrophes left as they are. */
  lemma ReprApostrophe(s: string)
    requires '\'' in s && '"' !in s
    requires forall i :: 0 <= i < |s| ==> KeptInRepr(s[i], '"')
    ensures Repr(s) == "\"" + s + "\""
  {
    ReprBodyKept(s, '"');
  }

  /** `sep.join(parts)`. */
  function Join(parts: seq<string>, sep: string): string {
    if |parts| == 0 then ""
    else if |parts| == 1 then parts[0]
    else parts[0] + sep + Join(parts[1..], sep)
  }

  function TotalLength(parts: seq<string>): nat {
    if |parts| == 0 then 0 else |parts[0]| + TotalLength(parts[1..])
  }

  /** Joining adds exactly one separator between neighbouring parts and nothing else. */
  lemma {:induction false} JoinLength(parts: seq<string>, sep: string)
    ensures |parts| > 0 ==> |Join(parts, sep)| == TotalLength(parts) + (|parts| - 1) * |sep|
    ensures |parts| == 0 ==> Join(parts, sep) == ""
  {
    if |parts| > 1 {
      JoinLength(parts[1..], sep);
    }
  }

  /** Joining a longer list appends a separator and the new part. */
  lemma {:induction false} JoinSnoc(parts: seq<string>, x: string, sep: string)
    requires |parts| > 0
    ensures Join(parts + [x], sep) == Join(parts, sep) + sep + x
  {
    if |parts| > 1 {
      assert (parts + [x])[1..] == parts[1..] + [x];
      JoinSnoc(parts[1..], x, sep);
    } else {
      assert (parts + [x])[1..] == [x];
    }
  }

  /** What `sep.join(parts)` writes before the last part. */
  function JoinFront(parts: seq<string>, sep: string): string
    requires |parts| > 0
  {
    if |parts| == 1 then "" else Join(parts[..|parts| - 1], sep) + sep
  }

  lemma JoinEndsWithLast(parts: seq<string>, sep: string)
    requires |parts| > 0
    ensures Join(parts, sep) == JoinFront(parts, sep) + parts[|parts| - 1]
  {
    if |parts| > 1 {
      var init := parts[..|parts| - 1];
      assert parts == init + [parts[|parts| - 1]];
      JoinSnoc(init, parts[|parts| - 1], sep);
    }
  }

  /** `pat` occurs in `s` at index `i`. */
  predicate OccursAt(s: string, pat: string, i: int) {
    0 <= i && i + |pat| <= |s| && s[i..i + |pat|] == pat
  }

  /** `s.replace(pat, rep)` for a non-empty `pat`: left to right, non-overlapping. */
  function ReplaceAll(s: string, pat: string, rep: string): string
    requires |pat| > 0
    decreases |s|
  {
    if |s| < |pat| then s
    else if s[..|pat|] == pat then rep + ReplaceAll(s[|pat|..], pat, rep)
    else [s[0]] + ReplaceAll(s[1..], pat, rep)
  }

  /** A string without the pattern comes back unchanged. */
  lemma {:induction false} ReplaceAllAbsent(s: string, pat: string, rep: string)
    requires |pat| > 0
    requires forall i :: !OccursAt(s, pat, i)
    ensures ReplaceAll(s, pat, rep) == s
  {
    if |s| >= |pat| {
      assert !OccursAt(s, pat, 0);
      forall i ensures !OccursAt(s[1..], pat, i) {
        if OccursAt(s[1..], pat, i) { assert s[1..][i..i + |pat|] == s[i + 1..i + 1 + |pat|]; assert OccursAt(s, pat, i + 1); }
      }
      ReplaceAllAbsent(s[1..], pat, rep);
    }
  }

  /** The first occurrence of the pattern is replaced and the scan resumes right after it. */
  lemma ReplaceAllFirst(s: string, pat: string, rep: string, k: nat)
    requires |pat| > 0
    requires OccursAt(s, pat, k)
    requires forall i :: 0 <= i < k ==> !OccursAt(s, pat, i)
    ensures ReplaceAll(s, pat, rep) == s[..k] + rep + ReplaceAll(s[k + |pat|..], pat, rep)
  {
    var a, b := s[..k], s[k..];
    SplitAt(s, k, |pat|);
    ReplaceAllKeepsPrefix(a, b, pat, rep);
    ReplaceAllAtStart(b, pat, rep);
    Cons3(a, rep, ReplaceAll(s[k + |pat|..], pat, rep));
  }

  lemma SplitAt<T>(s: seq<T>, k: nat, n: nat)
    requires k + n <= |s|
    ensures s == s[..k] + s[k..] && s[k..][n..] == s[k + n..]
  {
  }

  lemma Cons3<T>(x: seq<T>, y: seq<T>, z: seq<T>)
    ensures x + (y + z) == x + y + z
  {
  }

  /** Where the pattern starts, it is replaced and the scan resumes after it. */
  lemma ReplaceAllAtStart(s: string, pat: string, rep: string)
    requires |pat| > 0 && OccursAt(s, pat, 0)
    ensures ReplaceAll(s, pat, rep) == rep + ReplaceAll(s[|pat|..], pat, rep)
  {
    assert s[..|pat|] == s[0..|pat|];
  }

  /** A stretch in which the pattern does not start is copied as it is. */
  lemma {:induction false} ReplaceAllKeepsPrefix(a: string, b: string, pat: string, rep: string)
    requires |pat| > 0
    requires forall i :: 0 <= i < |a| ==> !OccursAt(a + b, pat, i)
    ensures ReplaceAll(a + b, pat, rep) == a + ReplaceAll(b, pat, rep)
    decreases |a|
  {
    if |a| > 0 {
      var s, a' := a + b, a[1..];
      assert s[1..] == a' + b;
      forall i | 0 <= i < |a'| ensures !OccursAt(a' + b, pat, i) {
        if OccursAt(a' + b, pat, i) {
          ShiftOccurrence(s, pat, i);
        }
      }
      ReplaceAllKeepsPrefix(a', b, pat, rep);
      assert [a[0]] + a' == a;
      if |s| >= |pat| {
        assert !OccursAt(s, pat, 0);
        ReplaceAllSkip(s, pat, rep);
        assert ReplaceAll(s, pat, rep) == [a[0]] + ReplaceAll(a' + b, pat, rep);
        Cons(a[0], a', ReplaceAll(b, pat, rep));
      } else {
        assert ReplaceAll(b, pat, rep) == b;
      }
    } else {
      assert a + b == b;
    }
  }

  /** An occurrence in `s[1..]` is one in `s`, a place further on. */
  lemma ShiftOccurrence(s: string, pat: string, i: nat)
    requires |s| > 0 && OccursAt(s[1..], pat, i)
    ensures OccursAt(s, pat, i + 1)
  {
    assert s[1..][i..i + |pat|] == s[i + 1..i + 1 + |pat|];
  }

  /** Where the pattern does not start, the first character is kept and the scan moves on. */
  lemma ReplaceAllSkip(s: string, pat: string, rep: string)
    requires |pat| > 0 && |s| >= |pat| && !OccursAt(s, pat, 0)
    ensures ReplaceAll(s, pat, rep) == [s[0]] + ReplaceAll(s[1..], pat, rep)
  {
    assert s[0..|pat|] == s[..|pat|];
  }

  lemma Cons(c: char, x: string, y: string)
    ensures [c] + (x + y) == ([c] + x) + y
  {
  }

  /** Replacing a pattern by itself changes nothing. */
  lemma {:induction false} ReplaceAllSelf(s: string, pat: string)
    requires |pat| > 0
    ensures ReplaceAll(s, pat, pat) == s
    decreases |s|
  {
    if |s| >= |pat| {
      if s[..|pat|] == pat {
        ReplaceAllSelf(s[|pat|..], pat);
      } else {
        ReplaceAllSelf(s[1..], pat);
      }
    }
  }

  /** Every occurrence of one character `c` replaced by `rep`. */
  function ReplaceChar(s: string, c: char, rep: string): string {
    if |s| == 0 then "" else (if s[0] == c then rep else [s[0]]) + ReplaceChar(s[1..], c, rep)
  }

  /** `s.replace(c, rep)` for a one-character pattern replaces each occurrence of `c`. */
  lemma {:induction false} ReplaceAllOneChar(s: string, c: char, rep: string)
    ensures ReplaceAll(s, [c], rep) == ReplaceChar(s, c, rep)
    decreases |s|
  {
    if |s| > 0 {
      assert s[..1] == [c] <==> s[0] == c;
      ReplaceAllOneChar(s[1..], c, rep);
    }
  }

  lemma {:induction false} ReplaceCharAppend(a: string, b: string, c: char, rep: string)
    ensures ReplaceChar(a + b, c, rep) == ReplaceChar(a, c, rep) + ReplaceChar(b, c, rep)
    decreases |a|
  {
    if |a| > 0 {
      assert (a + b)[1..] == a[1..] + b;
      ReplaceCharAppend(a[1..], b, c, rep);
    } else {
      assert a + b == b;
    }
  }

  /** `Find` gives the first index holding `c`. */
  lemma FindFirst(s: string, c: char, k: nat)
    requires k < |s| && s[k] == c && c !in s[..k]
    ensures Find(s, c) == k
  {
    assert s[k] in s;
    assert forall j :: 0 <= j < k ==> s[..k][j] == s[j];
    assert forall j :: k < j <= |s| ==> s[..j][k] == s[k];
  }

  /** `RFind` gives the last index holding `c`. */
  lemma RFindLast(s: string, c: char, k: nat)
    requires k < |s| && s[k] == c && c !in s[k + 1..]
    ensures RFind(s, c) == k
  {
    assert s[k] in s;
  }
}

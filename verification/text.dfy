/** The parts of .NET's `string` API the add-in relies on, over `seq<char>`:
    whitespace tests and trimming, ordinal case-insensitive comparison, substring
    search and replacement, ordinal ordering and integer formatting. */
module Text {
  import opened Wrappers
  import Seqs

  /** The whitespace characters `char.IsWhiteSpace` reports in the ASCII and
      Latin-1 ranges. */
  predicate IsWhiteSpace(c: char) {
    c == ' ' || c == '\t' || c == '\n' || c == '\r' || c == '\U{B}' || c == '\U{C}'
    || c == '\U{85}' || c == '\U{A0}'
  }

  /** `string.IsNullOrWhiteSpace` on a non-null string. */
  predicate IsBlank(s: string) {
    forall i :: 0 <= i < |s| ==> IsWhiteSpace(s[i])
  }

  /** `string.IsNullOrWhiteSpace`, with `None` standing for `null`. */
  predicate IsNullOrWhiteSpace(s: Option<string>) {
    s.None? || IsBlank(s.value)
  }

  /** Number of leading whitespace characters. */
  function LeadingSpace(s: string): (n: nat)
    ensures n <= |s|
    ensures forall k :: 0 <= k < n ==> IsWhiteSpace(s[k])
    ensures n < |s| ==> !IsWhiteSpace(s[n])
  {
    if s == [] || !IsWhiteSpace(s[0]) then 0
    else
      var n := LeadingSpace(s[1..]);
      assert forall k :: 1 <= k < |s| ==> s[k] == s[1..][k - 1];
      1 + n
  }

  /** Index where the trailing whitespace starts. */
  function TrailingStart(s: string): (n: nat)
    ensures n <= |s|
    ensures forall k :: n <= k < |s| ==> IsWhiteSpace(s[k])
    ensures n > 0 ==> !IsWhiteSpace(s[n - 1])
  {
    if s == [] || !IsWhiteSpace(s[|s| - 1]) then |s|
    else
      var n := TrailingStart(s[..|s| - 1]);
      assert forall k :: 0 <= k < |s| - 1 ==> s[k] == s[..|s| - 1][k];
      n
  }

  /** `string.Trim()`: drops leading and trailing whitespace. */
  function Trim(s: string): (r: string)
    ensures r == "" <==> IsBlank(s)
    ensures r != "" ==> !IsWhiteSpace(r[0]) && !IsWhiteSpace(r[|r| - 1])
    ensures exists i, j :: 0 <= i <= j <= |s| && r == s[i..j]
  {
    if IsBlank(s) then
      assert "" == s[0..0];
      ""
    else
      var m :| 0 <= m < |s| && !IsWhiteSpace(s[m]);
      var i, j := LeadingSpace(s), TrailingStart(s);
      assert i <= m < j;
      s[i..j]
  }

  /** Trimming twice trims nothing more. */
  lemma TrimIdempotent(s: string)
    ensures Trim(Trim(s)) == Trim(s)
  {
    var r := Trim(s);
    if r != "" {
      assert LeadingSpace(r) == 0;
      assert TrailingStart(r) == |r|;
      assert r[0..|r|] == r;
    }
  }

  // ---------------------------------------------------------------------------
  // Ordinal, case-insensitive comparison (ASCII case folding)

  function LowerChar(c: char): (d: char)
    ensures 'A' <= c <= 'Z' ==> d as int == c as int + 32
    ensures !('A' <= c <= 'Z') ==> d == c
  {
    if 'A' <= c <= 'Z' then (c as int + 32) as char else c
  }

  function Fold(s: string): (r: string)
    ensures |r| == |s|
    ensures forall i :: 0 <= i < |s| ==> r[i] == LowerChar(s[i])
  {
    if s == [] then [] else [LowerChar(s[0])] + Fold(s[1..])
  }

  /** `string.Equals(a, b, StringComparison.OrdinalIgnoreCase)`. */
  predicate EqualsIgnoreCase(a: string, b: string) {
    Fold(a) == Fold(b)
  }

  function UpperChar(c: char): (d: char)
    ensures 'a' <= c <= 'z' ==> d as int == c as int - 32
    ensures !('a' <= c <= 'z') ==> d == c
  {
    if 'a' <= c <= 'z' then (c as int - 32) as char else c
  }

  /** The key `StringComparer.OrdinalIgnoreCase` orders by: the upper-cased string. */
  function FoldUpper(s: string): (r: string)
    ensures |r| == |s|
    ensures forall i :: 0 <= i < |s| ==> r[i] == UpperChar(s[i])
  {
    if s == [] then [] else [UpperChar(s[0])] + FoldUpper(s[1..])
  }

  /** Two characters agree lower-cased iff they agree upper-cased. */
  lemma FoldsAgreeChar(x: char, y: char)
    ensures LowerChar(x) == LowerChar(y) <==> UpperChar(x) == UpperChar(y)
  {
  }

  /** Upper-casing and lower-casing make the same strings equal, so either fold decides
      `EqualsIgnoreCase`. */
  lemma FoldsAgree(a: string, b: string)
    ensures EqualsIgnoreCase(a, b) <==> FoldUpper(a) == FoldUpper(b)
  {
    if |a| == |b| {
      forall i | 0 <= i < |a| ensures Fold(a)[i] == Fold(b)[i] <==> FoldUpper(a)[i] == FoldUpper(b)[i] {
        FoldsAgreeChar(a[i], b[i]);
      }
      if Fold(a) != Fold(b) {
        var i :| 0 <= i < |a| && Fold(a)[i] != Fold(b)[i];
        assert FoldUpper(a)[i] != FoldUpper(b)[i];
      }
      if FoldUpper(a) != FoldUpper(b) {
        var i :| 0 <= i < |a| && FoldUpper(a)[i] != FoldUpper(b)[i];
        assert Fold(a)[i] != Fold(b)[i];
      }
    }
  }

  /** `StringComparer.OrdinalIgnoreCase.Compare(a, b) <= 0`: ordinal order of the
      upper-cased strings. */
  predicate LeIgnoreCase(a: string, b: string) {
    LexLe(FoldUpper(a), FoldUpper(b))
  }

  /** The order is that of upper-cased text: a letter sorts before '_' (and '[', '\\', ']',
      '^', '`'), which lower-cased text would put first. */
  lemma LetterBeforeUnderscore()
    ensures LeIgnoreCase("ax", "_x") && !LeIgnoreCase("_x", "ax")
    ensures LexLe(Fold("_x"), Fold("ax"))
  {
    assert FoldUpper("ax") == "AX";
    assert FoldUpper("_x") == "_X";
    assert Fold("ax") == "ax";
    assert Fold("_x") == "_x";
  }

  // ---------------------------------------------------------------------------
  // Substring search and replacement (ordinal)

  /** `sub` occurs in `s` at index `i`. */
  predicate OccursAt(s: string, sub: string, i: int) {
    0 <= i && i + |sub| <= |s| && s[i..i + |sub|] == sub
  }

  /** `s.Contains(sub)` (ordinal); every string contains "". */
  predicate Contains(s: string, sub: string) {
    exists i :: 0 <= i <= |s| && OccursAt(s, sub, i)
  }

  /** `s.Contains(sub, StringComparison.OrdinalIgnoreCase)` / `IndexOf(sub, OrdinalIgnoreCase) >= 0`. */
  predicate ContainsIgnoreCase(s: string, sub: string) {
    Contains(Fold(s), Fold(sub))
  }

  /** `s.Replace(find, rep)`: every non-overlapping occurrence of `find`, scanning from
      the left, is replaced by `rep`. .NET throws on an empty `find`. */
  function ReplaceAll(s: string, find: string, rep: string): (r: string)
    requires find != ""
    ensures |s| < |find| ==> r == s
    decreases |s|
  {
    if |s| < |find| then s
    else if s[..|find|] == find then rep + ReplaceAll(s[|find|..], find, rep)
    else [s[0]] + ReplaceAll(s[1..], find, rep)
  }

  /** A string without an occurrence of `find` is left as it is. */
  lemma {:induction false} ReplaceAllAbsent(s: string, find: string, rep: string)
    requires find != "" && !Contains(s, find)
    ensures ReplaceAll(s, find, rep) == s
    decreases |s|
  {
    if |s| >= |find| {
      assert !OccursAt(s, find, 0);
      assert !Contains(s[1..], find) by {
        forall i | 0 <= i <= |s[1..]| ensures !OccursAt(s[1..], find, i) {
          if OccursAt(s[1..], find, i) {
            assert s[1..][i..i + |find|] == s[i + 1..i + 1 + |find|];
            assert OccursAt(s, find, i + 1);
          }
        }
      }
      ReplaceAllAbsent(s[1..], find, rep);
      assert s == [s[0]] + s[1..];
    }
  }

  /** Replacing a string by itself changes nothing. */
  lemma {:induction false} ReplaceSelf(s: string, find: string)
    requires find != ""
    ensures ReplaceAll(s, find, find) == s
    decreases |s|
  {
    if |s| < |find| {
    } else if s[..|find|] == find {
      ReplaceSelf(s[|find|..], find);
      assert s == s[..|find|] + s[|find|..];
    } else {
      ReplaceSelf(s[1..], find);
      assert s == [s[0]] + s[1..];
    }
  }

  /** `s.Replace(oldChar, newChar)`: every `oldChar` becomes `newChar`. */
  function ReplaceChar(s: string, oldChar: char, newChar: char): (r: string)
    ensures |r| == |s|
    ensures forall i :: 0 <= i < |s| ==> r[i] == (if s[i] == oldChar then newChar else s[i])
  {
    if s == [] then [] else [if s[0] == oldChar then newChar else s[0]] + ReplaceChar(s[1..], oldChar, newChar)
  }

  /** Replacing one non-whitespace character by another commutes with trimming. */
  lemma TrimReplaceChar(s: string, oldChar: char, newChar: char)
    requires !IsWhiteSpace(oldChar) && !IsWhiteSpace(newChar)
    ensures IsBlank(ReplaceChar(s, oldChar, newChar)) <==> IsBlank(s)
    ensures Trim(ReplaceChar(s, oldChar, newChar)) == ReplaceChar(Trim(s), oldChar, newChar)
  {
    var r := ReplaceChar(s, oldChar, newChar);
    assert forall k :: 0 <= k < |s| ==> (IsWhiteSpace(r[k]) <==> IsWhiteSpace(s[k]));
    SameSpacing(s, r);
    if !IsBlank(s) {
      var i, j := LeadingSpace(s), TrailingStart(s);
      TrimIsSlice(s);
      TrimIsSlice(r);
      ReplaceCharSlice(s, oldChar, newChar, i, j);
    }
  }

  /** Replacing in a slice is slicing the replaced string. */
  lemma ReplaceCharSlice(s: string, oldChar: char, newChar: char, i: nat, j: nat)
    requires i <= j <= |s|
    ensures ReplaceChar(s[i..j], oldChar, newChar) == ReplaceChar(s, oldChar, newChar)[i..j]
  {
    var a, b := ReplaceChar(s[i..j], oldChar, newChar), ReplaceChar(s, oldChar, newChar)[i..j];
    forall k | 0 <= k < |a| ensures a[k] == b[k] {
      assert s[i..j][k] == s[i + k];
    }
  }

  /** Strings with whitespace at the same places trim at the same places. */
  lemma SameSpacing(s: string, r: string)
    requires |s| == |r|
    requires forall k :: 0 <= k < |s| ==> (IsWhiteSpace(r[k]) <==> IsWhiteSpace(s[k]))
    ensures IsBlank(r) <==> IsBlank(s)
    ensures LeadingSpace(r) == LeadingSpace(s) && TrailingStart(r) == TrailingStart(s)
  {
    var i, i2 := LeadingSpace(s), LeadingSpace(r);
    var j, j2 := TrailingStart(s), TrailingStart(r);
  }

  /** A string with a non-whitespace character trims to the slice between its leading and
      trailing whitespace. */
  lemma TrimIsSlice(s: string)
    requires !IsBlank(s)
    ensures Trim(s) == s[LeadingSpace(s)..TrailingStart(s)]
  {
  }

  // ---------------------------------------------------------------------------
  // Ordinal ordering

  /** Ordinal (code-unit) lexicographic `<=`. */
  predicate LexLe(a: string, b: string) {
    if a == [] then true
    else if b == [] then false
    else if a[0] != b[0] then a[0] < b[0]
    else LexLe(a[1..], b[1..])
  }

  lemma {:induction false} LexLeTotal(a: string, b: string)
    ensures LexLe(a, b) || LexLe(b, a)
  {
    if a != [] && b != [] && a[0] == b[0] { LexLeTotal(a[1..], b[1..]); }
  }

  lemma {:induction false} LexLeTransitive(a: string, b: string, c: string)
    requires LexLe(a, b) && LexLe(b, c)
    ensures LexLe(a, c)
  {
    if a != [] && b != [] && c != [] && a[0] == b[0] && b[0] == c[0] {
      LexLeTransitive(a[1..], b[1..], c[1..]);
    }
  }

  lemma {:induction false} LexLeAntisymmetric(a: string, b: string)
    requires LexLe(a, b) && LexLe(b, a)
    ensures a == b
  {
    if a != [] && b != [] {
      LexLeAntisymmetric(a[1..], b[1..]);
      assert a == [a[0]] + a[1..] && b == [b[0]] + b[1..];
    }
  }

  /** `LexLe` is a total preorder, as sorting requires. */
  lemma LexLeIsTotalPreorder()
    ensures Seqs.TotalPreorder(LexLe)
  {
    forall a, b ensures LexLe(a, b) || LexLe(b, a) { LexLeTotal(a, b); }
    forall a, b, c | LexLe(a, b) && LexLe(b, c) ensures LexLe(a, c) { LexLeTransitive(a, b, c); }
  }

  // ---------------------------------------------------------------------------
  // Characters and numbers

  /** `char.IsLetterOrDigit` on ASCII. */
  predicate IsLetterOrDigit(c: char) {
    'a' <= c <= 'z' || 'A' <= c <= 'Z' || '0' <= c <= '9'
  }

  predicate IsDigit(c: char) {
    '0' <= c <= '9'
  }

  function DigitChar(d: nat): (c: char)
    requires d < 10
    ensures IsDigit(c)
  {
    ('0' as int + d) as char
  }

  /** `n.ToString()` for a non-negative integer: decimal digits, no leading zero. */
  function NatToString(n: nat): (r: string)
    ensures |r| >= 1
    ensures forall i :: 0 <= i < |r| ==> IsDigit(r[i])
    ensures |r| > 1 <==> n >= 10
    decreases n
  {
    if n < 10 then [DigitChar(n)] else NatToString(n / 10) + [DigitChar(n % 10)]
  }

  /** Distinct numbers print differently. */
  lemma {:induction false} NatToStringInjective(m: nat, n: nat)
    requires NatToString(m) == NatToString(n)
    ensures m == n
    decreases m
  {
    var s := NatToString(m);
    if m >= 10 && n >= 10 {
      assert NatToString(m / 10) == s[..|s| - 1] == NatToString(n / 10);
      NatToStringInjective(m / 10, n / 10);
      assert DigitChar(m % 10) == s[|s| - 1] == DigitChar(n % 10);
    }
  }

  function Pow10(k: nat): (p: nat)
    ensures p >= 1
  {
    if k == 0 then 1 else 10 * Pow10(k - 1)
  }

  /** A number of at least `10^k` prints with more than `k` digits. */
  lemma {:induction false} NatToStringLength(n: nat, k: nat)
    requires n >= Pow10(k)
    ensures |NatToString(n)| > k
    decreases k
  {
    if k > 0 {
      NatToStringLength(n / 10, k - 1);
    }
  }

  /** The length of the longest string in `s` (0 for none). */
  function MaxLength(s: seq<string>): (m: nat)
    ensures forall i :: 0 <= i < |s| ==> |s[i]| <= m
  {
    if s == [] then 0
    else
      var rest := MaxLength(s[1..]);
      assert forall i :: 1 <= i < |s| ==> s[i] == s[1..][i - 1];
      if |s[0]| > rest then |s[0]| else rest
  }
}

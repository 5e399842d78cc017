/** The Foundation string operations the chat core relies on: `lowercased()`,
    `contains`, `replacingOccurrences(of:with:options: .caseInsensitive)`,
    `trimmingCharacters(in: .whitespacesAndNewlines)` and the decimal
    rendering of an `Int` in string interpolation. Strings are sequences of
    Unicode scalars; case mapping is restricted to ASCII letters. */
module Text {
  import opened Sequences

  // ---------------------------------------------------------------- case

  function LowerChar(c: char): char
  {
    if 'A' <= c <= 'Z' then (c as int - 'A' as int + 'a' as int) as char else c
  }

  /** ASCII lower-casing, the model of `lowercased()`. */
  function Lower(s: string): string
  {
    seq(|s|, i requires 0 <= i < |s| => LowerChar(s[i]))
  }

  lemma LowerSlice(s: string, i: nat, j: nat)
    requires i <= j <= |s|
    ensures Lower(s[i..j]) == Lower(s)[i..j]
  {
  }

  /** Text without upper-case ASCII letters is its own lower-case form. */
  lemma LowerUnchanged(s: string)
    requires forall i :: 0 <= i < |s| ==> !('A' <= s[i] <= 'Z')
    ensures Lower(s) == s
  {
  }

  /** Lower-casing leaves no upper-case ASCII letter and is idempotent. */
  lemma LowerIsLower(s: string)
    ensures forall i :: 0 <= i < |s| ==> !('A' <= Lower(s)[i] <= 'Z')
    ensures Lower(Lower(s)) == Lower(s)
  {
  }

  // ----------------------------------------------------------- substrings

  /** `p` occurs in `s` starting at index `i`. */
  predicate OccursAt(s: string, p: string, i: int)
  {
    0 <= i && i + |p| <= |s| && s[i..i + |p|] == p
  }

  predicate StartsWith(s: string, p: string)
  {
    |p| <= |s| && s[..|p|] == p
  }

  /** Substring test, the model of `String.contains`. */
  predicate Contains(s: string, p: string)
    decreases |s|
  {
    StartsWith(s, p) || (s != [] && Contains(s[1..], p))
  }

  /** `Contains` holds exactly when the phrase occurs at some index. */
  lemma {:induction false} ContainsIff(s: string, p: string)
    ensures Contains(s, p) <==> exists i :: OccursAt(s, p, i)
    decreases |s|
  {
    if s == [] {
      if Contains(s, p) {
        assert s[0..|p|] == p;
        assert OccursAt(s, p, 0);
      }
      if exists i :: OccursAt(s, p, i) {
        var i :| OccursAt(s, p, i);
        assert p == [];
        assert s[..|p|] == p;
        assert StartsWith(s, p);
      }
    } else {
      ContainsIff(s[1..], p);
      if Contains(s, p) {
        if StartsWith(s, p) {
          assert s[0..|p|] == s[..|p|];
          assert OccursAt(s, p, 0);
        } else {
          var i :| OccursAt(s[1..], p, i);
          assert s[1..][i..i + |p|] == s[i + 1..i + 1 + |p|];
          assert OccursAt(s, p, i + 1);
        }
      }
      if exists i :: OccursAt(s, p, i) {
        var i :| OccursAt(s, p, i);
        if i == 0 {
          assert s[0..|p|] == s[..|p|];
          assert StartsWith(s, p);
        } else {
          assert s[1..][i - 1..i - 1 + |p|] == s[i..i + |p|];
          assert OccursAt(s[1..], p, i - 1);
          assert Contains(s[1..], p);
        }
      }
    }
  }

  /** A phrase that occurs is no longer than the text. */
  lemma {:induction false} ContainsLength(s: string, p: string)
    requires Contains(s, p)
    ensures |p| <= |s|
    decreases |s|
  {
    if !StartsWith(s, p) {
      ContainsLength(s[1..], p);
    }
  }

  /** Case-insensitive substring test. */
  predicate ContainsCI(s: string, p: string)
  {
    Contains(Lower(s), Lower(p))
  }

  // ------------------------------------------------------------- removal

  /** `replacingOccurrences(of: p, with: "", options: .caseInsensitive)`:
      one left-to-right pass that deletes every non-overlapping occurrence
      of `p`, compared without regard to case. Text that a deletion brings
      together is not searched again. An empty phrase changes nothing. */
  function RemoveAllCI(s: string, p: string): string
    decreases |s|
  {
    if p == [] || |s| < |p| then s
    else if Lower(s[..|p|]) == Lower(p) then RemoveAllCI(s[|p|..], p)
    else [s[0]] + RemoveAllCI(s[1..], p)
  }

  /** Removal never adds characters and never reorders them. */
  lemma {:induction false} RemoveAllSubsequence(s: string, p: string)
    ensures IsSubsequence(RemoveAllCI(s, p), s)
    decreases |s|
  {
    if p == [] || |s| < |p| {
      SliceIsSubsequence(s, 0, |s|);
      assert s[0..|s|] == s;
    } else if Lower(s[..|p|]) == Lower(p) {
      RemoveAllSubsequence(s[|p|..], p);
      SuffixSubsequence(RemoveAllCI(s[|p|..], p), s, |p|);
    } else {
      RemoveAllSubsequence(s[1..], p);
      ConsSubsequence(s[0], RemoveAllCI(s[1..], p), s[1..]);
      assert [s[0]] + s[1..] == s;
    }
  }

  /** Lower-casing commutes with dropping a prefix. */
  lemma LowerDrop(s: string, k: nat)
    requires k <= |s|
    ensures Lower(s[k..]) == Lower(s)[k..]
  {
  }

  /** When the phrase does not occur (ignoring case), the text is unchanged. */
  lemma {:induction false} RemoveAllAbsent(s: string, p: string)
    requires !ContainsCI(s, p)
    ensures RemoveAllCI(s, p) == s
    decreases |s|
  {
    if p != [] && |s| >= |p| {
      LowerSlice(s, 0, |p|);
      assert Lower(s)[..|p|] == Lower(s)[0..|p|];
      assert Lower(s[..|p|]) != Lower(p);
      LowerDrop(s, 1);
      assert !Contains(Lower(s)[1..], Lower(p));
      RemoveAllAbsent(s[1..], p);
      assert [s[0]] + s[1..] == s;
    }
  }

  /** When a non-empty phrase occurs (ignoring case), at least one copy of
      it is deleted. */
  lemma {:induction false} RemoveAllPresent(s: string, p: string)
    requires p != [] && ContainsCI(s, p)
    ensures |RemoveAllCI(s, p)| + |p| <= |s|
    decreases |s|
  {
    ContainsLength(Lower(s), Lower(p));
    LowerSlice(s, 0, |p|);
    assert Lower(s)[..|p|] == Lower(s)[0..|p|];
    if Lower(s[..|p|]) == Lower(p) {
      RemoveAllSubsequence(s[|p|..], p);
      SubsequenceLength(RemoveAllCI(s[|p|..], p), s[|p|..]);
    } else {
      LowerDrop(s, 1);
      assert Contains(Lower(s)[1..], Lower(p));
      RemoveAllPresent(s[1..], p);
    }
  }

  /** For a non-empty phrase, removal leaves the text as it was exactly when
      the phrase does not occur in it. */
  lemma RemoveAllUnchangedIff(s: string, p: string)
    requires p != []
    ensures RemoveAllCI(s, p) == s <==> !ContainsCI(s, p)
  {
    if ContainsCI(s, p) {
      RemoveAllPresent(s, p);
    } else {
      RemoveAllAbsent(s, p);
    }
  }

  /** The head test of `RemoveAllCI`, applied at index `j`. */
  predicate MatchAt(s: string, p: string, j: nat)
  {
    j + |p| <= |s| && Lower(s[j..j + |p|]) == Lower(p)
  }

  /** That test is an occurrence in the lower-cased text. */
  lemma MatchAtOccurs(s: string, p: string, j: nat)
    ensures MatchAt(s, p, j) <==> OccursAt(Lower(s), Lower(p), j)
  {
    assert |Lower(s)| == |s| && |Lower(p)| == |p|;
    if j + |p| <= |s| {
      LowerSlice(s, j, j + |p|);
    }
  }

  /** A match in the tail is a match one place further on. */
  lemma MatchAtTail(s: string, p: string, j: nat)
    requires s != []
    ensures MatchAt(s[1..], p, j) <==> MatchAt(s, p, j + 1)
  {
    if j + 1 + |p| <= |s| {
      assert s[1..][j..j + |p|] == s[j + 1..j + 1 + |p|];
    }
  }

  /** Without a match at the front, the first character is kept and the
      scan goes on from the next one. */
  lemma RemoveAllKeepsHead(s: string, p: string)
    requires p != [] && s != [] && !MatchAt(s, p, 0)
    ensures RemoveAllCI(s, p) == [s[0]] + RemoveAllCI(s[1..], p)
  {
    if |p| <= |s| {
      assert s[0..|p|] == s[..|p|];
    }
  }

  /** One more kept character in front of a kept prefix. */
  lemma RemoveAllKeepsStep(s: string, p: string, tail: string, k: nat)
    requires p != [] && k < |s| && !MatchAt(s, p, 0) && tail == s[1..]
    requires RemoveAllCI(tail, p) == tail[..k] + RemoveAllCI(tail[k..], p)
    ensures RemoveAllCI(s, p) == s[..k + 1] + RemoveAllCI(s[k + 1..], p)
  {
    RemoveAllKeepsHead(s, p);
    assert tail[k..] == s[k + 1..];
    ConsAssoc(s[0], tail[..k], RemoveAllCI(s[k + 1..], p));
    ConsPrefix(s, k + 1);
  }

  /** A match at the front is deleted and the scan resumes after it. */
  lemma RemoveAllMatch(s: string, p: string)
    requires p != [] && MatchAt(s, p, 0)
    ensures RemoveAllCI(s, p) == RemoveAllCI(s[|p|..], p)
  {
    assert s[0..|p|] == s[..|p|];
  }

  /** No match of `p` starts before `i`, stated the way the scan meets it:
      none at the front, then the same from one place further on. */
  predicate NoMatchBefore(s: string, p: string, i: nat)
    decreases i
  {
    i == 0 || (s != [] && !MatchAt(s, p, 0) && NoMatchBefore(s[1..], p, i - 1))
  }

  /** The index form of "no match before `i`" gives the scan's form. */
  lemma {:induction false} NoMatchBeforeFromIndex(s: string, p: string, i: nat)
    requires i <= |s|
    requires forall j :: 0 <= j < i ==> !MatchAt(s, p, j)
    ensures NoMatchBefore(s, p, i)
    decreases i
  {
    if i > 0 {
      assert !MatchAt(s, p, 0);
      forall j | 0 <= j < i - 1
        ensures !MatchAt(s[1..], p, j)
      {
        MatchAtTail(s, p, j);
      }
      NoMatchBeforeFromIndex(s[1..], p, i - 1);
    }
  }

  /** Characters before the first match are kept as they are. */
  lemma {:induction false} RemoveAllKeepsPrefix(s: string, p: string, i: nat)
    requires p != [] && i <= |s| && NoMatchBefore(s, p, i)
    ensures RemoveAllCI(s, p) == s[..i] + RemoveAllCI(s[i..], p)
    decreases i
  {
    if i > 0 {
      var tail, k := s[1..], i - 1;
      RemoveAllKeepsPrefix(tail, p, k);
      RemoveAllKeepsStep(s, p, tail, k);
    }
  }

  /** A match at `i` is a match at the front of `s[i..]`. */
  lemma MatchAtSuffix(s: string, p: string, i: nat)
    requires MatchAt(s, p, i)
    ensures MatchAt(s[i..], p, 0) && s[i..][|p|..] == s[i + |p|..]
  {
    assert s[i..][0..|p|] == s[i..i + |p|];
  }

  /** The scan deletes the leftmost occurrence (ignoring case) and goes on
      after it: everything before that occurrence is kept, and the rest of
      the text is processed the same way. With `RemoveAllAbsent` this fixes
      the result for every input: each non-overlapping occurrence found left
      to right is deleted, not only the first. */
  lemma RemoveAllAt(s: string, p: string, i: nat)
    requires p != [] && OccursAt(Lower(s), Lower(p), i)
    requires forall j :: 0 <= j < i ==> !OccursAt(Lower(s), Lower(p), j)
    ensures i + |p| <= |s|
    ensures RemoveAllCI(s, p) == s[..i] + RemoveAllCI(s[i + |p|..], p)
  {
    forall j | 0 <= j < i
      ensures !MatchAt(s, p, j)
    {
      MatchAtOccurs(s, p, j);
    }
    MatchAtOccurs(s, p, i);
    NoMatchBeforeFromIndex(s, p, i);
    RemoveAllKeepsPrefix(s, p, i);
    MatchAtSuffix(s, p, i);
    RemoveAllMatch(s[i..], p);
  }

  // ---------------------------------------------------------- whitespace

  /** Membership in `CharacterSet.whitespacesAndNewlines`: the Unicode
      separators (Zs, Zl, Zp), tab, and the line breaks U+000A-U+000D and
      U+0085. */
  predicate IsWhitespace(c: char)
  {
    || '\t' <= c <= '\r'
    || c == ' '
    || c == '\U{0085}'
    || c == '\U{00A0}'
    || c == '\U{1680}'
    || '\U{2000}' <= c <= '\U{200A}'
    || c == '\U{2028}'
    || c == '\U{2029}'
    || c == '\U{202F}'
    || c == '\U{205F}'
    || c == '\U{3000}'
  }

  /** How many characters of whitespace `s` starts with. */
  function LeadingBlanks(s: string): (n: nat)
    ensures n <= |s|
    ensures forall i :: 0 <= i < n ==> IsWhitespace(s[i])
    ensures n < |s| ==> !IsWhitespace(s[n])
    decreases |s|
  {
    if s != [] && IsWhitespace(s[0]) then 1 + LeadingBlanks(s[1..]) else 0
  }

  /** How many characters of whitespace `s` ends with. */
  function TrailingBlanks(s: string): (n: nat)
    ensures n <= |s|
    ensures forall i :: |s| - n <= i < |s| ==> IsWhitespace(s[i])
    ensures n < |s| ==> !IsWhitespace(s[|s| - n - 1])
    decreases |s|
  {
    if s != [] && IsWhitespace(s[|s| - 1]) then 1 + TrailingBlanks(s[..|s| - 1]) else 0
  }

  /** Drops leading whitespace: the result is the longest suffix of `s`
      that does not start with whitespace. */
  function TrimStart(s: string): (r: string)
    ensures |r| <= |s| && r == s[|s| - |r|..]
    ensures forall i :: 0 <= i < |s| - |r| ==> IsWhitespace(s[i])
    ensures r != [] ==> !IsWhitespace(r[0])
  {
    s[LeadingBlanks(s)..]
  }

  /** Drops trailing whitespace: the result is the longest prefix of `s`
      that does not end with whitespace. */
  function TrimEnd(s: string): (r: string)
    ensures |r| <= |s| && r == s[..|r|]
    ensures forall i :: |r| <= i < |s| ==> IsWhitespace(s[i])
    ensures r != [] ==> !IsWhitespace(r[|r| - 1])
  {
    s[..|s| - TrailingBlanks(s)]
  }

  /** `trimmingCharacters(in: .whitespacesAndNewlines)`. */
  function Trim(s: string): string
  {
    TrimEnd(TrimStart(s))
  }

  /** Neither end of `s` is whitespace. */
  predicate IsTrimmed(s: string)
  {
    s == [] || (!IsWhitespace(s[0]) && !IsWhitespace(s[|s| - 1]))
  }

  /** Trimming the end keeps the first character of a non-empty result. */
  lemma TrimEndFirst(t: string)
    requires TrimEnd(t) != []
    ensures TrimEnd(t)[0] == t[0]
  {
    var r := TrimEnd(t);
    assert r == t[..|r|];
  }

  /** A prefix of a suffix is a slice. */
  lemma PrefixOfSuffix(s: string, t: string, r: string)
    requires |t| <= |s| && t == s[|s| - |t|..]
    requires |r| <= |t| && r == t[..|r|]
    ensures |s| - |t| + |r| <= |s| && r == s[|s| - |t|..|s| - |t| + |r|]
  {
  }

  /** The trimmed text is the slice of `s` that starts where `TrimStart`
      stops cutting. */
  lemma {:induction false} TrimIsSlice(s: string)
    ensures |s| - |TrimStart(s)| + |Trim(s)| <= |s|
    ensures Trim(s) == s[|s| - |TrimStart(s)|..|s| - |TrimStart(s)| + |Trim(s)|]
  {
    var t := TrimStart(s);
    var r := TrimEnd(t);
    assert r == Trim(s);
    PrefixOfSuffix(s, t, r);
  }

  /** Everything after the trimmed slice is whitespace. */
  lemma {:induction false} TrimCutsSuffix(s: string)
    ensures forall i :: |s| - |TrimStart(s)| + |Trim(s)| <= i < |s| ==> IsWhitespace(s[i])
  {
    var t := TrimStart(s);
    var r := TrimEnd(t);
    var a := |s| - |t|;
    forall i | a + |r| <= i < |s|
      ensures IsWhitespace(s[i])
    {
      assert s[i] == t[i - a];
    }
  }

  /** Neither end of the trimmed text is whitespace. */
  lemma TrimIsTrimmed(s: string)
    ensures IsTrimmed(Trim(s))
  {
    var t := TrimStart(s);
    if TrimEnd(t) != [] {
      TrimEndFirst(t);
    }
  }

  /** Trimming cuts a whitespace-only prefix and suffix from `s` and leaves
      a slice of `s` with no whitespace at either end. */
  lemma TrimSlice(s: string)
    ensures |s| - |TrimStart(s)| + |Trim(s)| <= |s|
    ensures Trim(s) == s[|s| - |TrimStart(s)|..|s| - |TrimStart(s)| + |Trim(s)|]
    ensures forall i :: 0 <= i < |s| - |TrimStart(s)| ==> IsWhitespace(s[i])
    ensures forall i :: |s| - |TrimStart(s)| + |Trim(s)| <= i < |s| ==> IsWhitespace(s[i])
    ensures IsTrimmed(Trim(s))
  {
    TrimIsSlice(s);
    TrimCutsSuffix(s);
    TrimIsTrimmed(s);
  }

  /** Trimming never adds characters. */
  lemma {:induction false} TrimSubsequence(s: string)
    ensures IsSubsequence(Trim(s), s)
  {
    var r, a := Trim(s), |s| - |TrimStart(s)|;
    TrimIsSlice(s);
    assert a + |r| <= |s| && r == s[a..a + |r|];
    SliceAtIsSubsequence(r, s, a);
  }

  /** A string is left alone by trimming exactly when it is already trimmed;
      so trimming twice is trimming once. */
  lemma TrimFixedPoint(s: string)
    ensures Trim(s) == s <==> IsTrimmed(s)
    ensures Trim(Trim(s)) == Trim(s)
  {
    TrimSlice(s);
    if IsTrimmed(s) {
      assert TrimStart(s) == s;
      assert TrimEnd(s) == s;
    }
    TrimSlice(Trim(s));
    var r := Trim(s);
    if IsTrimmed(r) {
      assert TrimStart(r) == r;
      assert TrimEnd(r) == r;
    }
  }

  /** One leading blank before a trimmed word is all that trimming cuts. */
  lemma TrimLeadingBlank(s: string, w: string)
    requires s == [' '] + w && IsTrimmed(w)
    ensures Trim(s) == w
  {
    assert s[1..] == w;
    assert TrimStart(w) == w;
    assert TrimEnd(w) == w;
  }

  // ------------------------------------------------------------- numbers

  predicate IsDigit(c: char)
  {
    '0' <= c <= '9'
  }

  function DigitChar(d: nat): char
    requires d < 10
  {
    "0123456789"[d]
  }

  /** Decimal digits of `n` with no leading zero. */
  function NatToString(n: nat): (s: string)
    ensures s != [] && forall i :: 0 <= i < |s| ==> IsDigit(s[i])
    ensures |s| > 1 ==> s[0] != '0'
    ensures s[0] == '0' <==> n == 0
    decreases n
  {
    if n < 10 then [DigitChar(n)] else NatToString(n / 10) + [DigitChar(n % 10)]
  }

  /** A non-empty run of decimal digits. */
  predicate IsDecimal(s: string)
  {
    s != [] && forall i :: 0 <= i < |s| ==> IsDigit(s[i])
  }

  function DigitValue(c: char): nat
    requires IsDigit(c)
  {
    c as int - '0' as int
  }

  /** Value of a string of decimal digits. */
  function DecimalValue(s: string): nat
    requires forall i :: 0 <= i < |s| ==> IsDigit(s[i])
  {
    if s == [] then 0
    else 10 * DecimalValue(s[..|s| - 1]) + DigitValue(s[|s| - 1])
  }

  /** The digits written for `n` read back as `n`. */
  lemma {:induction false} NatToStringRoundTrip(n: nat)
    ensures DecimalValue(NatToString(n)) == n
    decreases n
  {
    if n >= 10 {
      NatToStringRoundTrip(n / 10);
      var s := NatToString(n);
      assert s[..|s| - 1] == NatToString(n / 10);
    }
  }

  /** A minus sign in front of digits that read back as `n`. */
  lemma SignedDigits(digits: string, n: nat)
    requires IsDecimal(digits) && DecimalValue(digits) == n && digits[0] != '0'
    ensures (['-'] + digits)[0] == '-' && (['-'] + digits)[1] != '0'
    ensures IsDecimal((['-'] + digits)[1..]) && DecimalValue((['-'] + digits)[1..]) == n
  {
    assert (['-'] + digits)[1..] == digits;
  }

  /** The digits written for `n` are decimal digits that read back as `n`. */
  lemma NatToStringValue(n: nat)
    ensures IsDecimal(NatToString(n)) && DecimalValue(NatToString(n)) == n
  {
    NatToStringRoundTrip(n);
  }

  /** An `Int` as written by string interpolation: a minus sign for a
      negative value, then the decimal digits of its magnitude, which read
      back as that magnitude, with no leading zero. */
  function IntToString(i: int): (s: string)
    ensures s != []
    ensures i < 0 <==> s[0] == '-'
    ensures i >= 0 && |s| > 1 ==> s[0] != '0'
    ensures i < 0 ==> |s| > 1 && s[1] != '0'
    ensures i >= 0 ==> IsDecimal(s) && DecimalValue(s) == i
    ensures i < 0 ==> IsDecimal(s[1..]) && DecimalValue(s[1..]) == -i
  {
    if i < 0 then
      NatToStringValue(-i);
      SignedDigits(NatToString(-i), -i);
      ['-'] + NatToString(-i)
    else
      NatToStringValue(i);
      NatToString(i)
  }
}

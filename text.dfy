/**
 * Character and string operations that the Python and TypeScript sources use
 * through their standard libraries: strip/trim, ASCII case mapping, replace,
 * split, join, substring tests and integer formatting.
 */
module Text {

  // ---------------------------------------------------------------------------
  // Characters
  // ---------------------------------------------------------------------------

  /** ASCII whitespace, as `str.strip()` and `String.prototype.trim()` drop it. */
  predicate IsSpace(c: char) {
    c == ' ' || '\t' <= c <= '\r'
  }

  predicate IsDigit(c: char) {
    '0' <= c <= '9'
  }

  predicate IsUpperAscii(c: char) {
    'A' <= c <= 'Z'
  }

  predicate IsLowerAscii(c: char) {
    'a' <= c <= 'z'
  }

  function LowerChar(c: char): (r: char)
    ensures IsUpperAscii(c) ==> IsLowerAscii(r) && r as int == c as int + 32
    ensures !IsUpperAscii(c) ==> r == c
  {
    if IsUpperAscii(c) then (c as int + 32) as char else c
  }

  function UpperChar(c: char): (r: char)
    ensures IsLowerAscii(c) ==> IsUpperAscii(r) && r as int == c as int - 32
    ensures !IsLowerAscii(c) ==> r == c
  {
    if IsLowerAscii(c) then (c as int - 32) as char else c
  }

  /** Upper-casing a character does not change its lower-case form. */
  lemma LowerOfUpper(c: char)
    ensures LowerChar(UpperChar(c)) == LowerChar(c)
  {
  }

  // ---------------------------------------------------------------------------
  // Whitespace trimming
  // ---------------------------------------------------------------------------

  /** Drops leading whitespace: the result is a suffix of `s` that does not start with a space. */
  function TrimStart(s: string): (r: string)
    ensures |r| <= |s| && r == s[|s| - |r|..]
    ensures forall k :: 0 <= k < |s| - |r| ==> IsSpace(s[k])
    ensures r == [] || !IsSpace(r[0])
  {
    if s != [] && IsSpace(s[0]) then TrimStart(s[1..]) else s
  }

  /** Drops trailing whitespace: the result is a prefix of `s` that does not end with a space. */
  function TrimEnd(s: string): (r: string)
    ensures |r| <= |s| && r == s[..|r|]
    ensures forall k :: |r| <= k < |s| ==> IsSpace(s[k])
    ensures r == [] || !IsSpace(r[|r| - 1])
  {
    if s != [] && IsSpace(s[|s| - 1]) then TrimEnd(s[..|s| - 1]) else s
  }

  /** Python's `str.strip()` and JavaScript's `trim()` (on ASCII whitespace). */
  function Strip(s: string): (r: string)
    ensures |r| <= |s|
    ensures r == [] || (!IsSpace(r[0]) && !IsSpace(r[|r| - 1]))
  {
    TrimEnd(TrimStart(s))
  }

  /** A string with no space at either end is its own strip. */
  lemma StripNoSpace(s: string)
    requires s == [] || (!IsSpace(s[0]) && !IsSpace(s[|s| - 1]))
    ensures Strip(s) == s
  {
  }

  /** Stripping twice is stripping once. */
  lemma StripIdempotent(s: string)
    ensures Strip(Strip(s)) == Strip(s)
  {
    StripNoSpace(Strip(s));
  }

  /** A string made only of whitespace strips to the empty string. */
  lemma {:induction false} StripAllSpace(s: string)
    requires forall k :: 0 <= k < |s| ==> IsSpace(s[k])
    ensures TrimStart(s) == [] && Strip(s) == []
  {
    if s != [] {
      StripAllSpace(s[1..]);
    }
  }

  /** A string whose strip is empty is made only of whitespace. */
  lemma StripEmptyAllSpace(s: string)
    requires Strip(s) == []
    ensures forall k :: 0 <= k < |s| ==> IsSpace(s[k])
  {
    var t := TrimStart(s);
    assert TrimEnd(t) == [];
  }

  /** Stripping only removes characters. */
  lemma StripChars(s: string)
    ensures forall x :: x in Strip(s) ==> x in s
  {
    var t := TrimStart(s);
    assert forall x :: x in Strip(s) ==> x in t;
  }

  /** True when the string is empty or only whitespace (`not s.strip()`, `!s.trim()`). */
  predicate IsBlank(s: string) {
    Strip(s) == []
  }

  // ---------------------------------------------------------------------------
  // Case mapping
  // ---------------------------------------------------------------------------

  /** `str.lower()` / `toLowerCase()` on ASCII letters; every other character is kept. */
  function Lower(s: string): (r: string)
    ensures |r| == |s|
    ensures forall i :: 0 <= i < |s| ==> r[i] == LowerChar(s[i])
  {
    seq(|s|, i requires 0 <= i < |s| => LowerChar(s[i]))
  }

  /** `str.upper()` / `toUpperCase()` on ASCII letters; every other character is kept. */
  function Upper(s: string): (r: string)
    ensures |r| == |s|
    ensures forall i :: 0 <= i < |s| ==> r[i] == UpperChar(s[i])
  {
    seq(|s|, i requires 0 <= i < |s| => UpperChar(s[i]))
  }

  // ---------------------------------------------------------------------------
  // Prefixes, suffixes, substrings
  // ---------------------------------------------------------------------------

  predicate StartsWith(s: string, p: string) {
    |p| <= |s| && s[..|p|] == p
  }

  predicate EndsWith(s: string, p: string) {
    |p| <= |s| && s[|s| - |p|..] == p
  }

  /** Substring test (`in` in Python, `includes` in JavaScript). */
  predicate Contains(s: string, sub: string) {
    StartsWith(s, sub) || (s != [] && Contains(s[1..], sub))
  }

  /** A string contains each of its suffixes. */
  lemma {:induction false} ContainsSuffix(a: string, b: string)
    ensures Contains(a + b, b)
  {
    if a == [] {
      assert a + b == b;
      assert StartsWith(b, b);
    } else {
      assert (a + b)[1..] == a[1..] + b;
      ContainsSuffix(a[1..], b);
    }
  }

  /** Index of the first occurrence of `c`, or `|s|` when there is none. */
  function IndexOf(s: string, c: char): (i: nat)
    ensures i <= |s|
    ensures i < |s| ==> s[i] == c
    ensures forall k :: 0 <= k < i ==> s[k] != c
  {
    if s == [] then 0 else if s[0] == c then 0 else 1 + IndexOf(s[1..], c)
  }

  /** Number of occurrences of `c` in `s` (Python's `str.count`). */
  function CountChar(s: string, c: char): nat {
    if s == [] then 0 else (if s[0] == c then 1 else 0) + CountChar(s[1..], c)
  }

  lemma {:induction false} CountCharZero(s: string, c: char)
    ensures CountChar(s, c) == 0 <==> c !in s
  {
    if s != [] {
      CountCharZero(s[1..], c);
      assert s == [s[0]] + s[1..];
    }
  }

  /** Appending a character adds one occurrence when it is `c`. */
  lemma {:induction false} CountCharSnoc(s: string, x: char, c: char)
    ensures CountChar(s + [x], c) == CountChar(s, c) + if x == c then 1 else 0
  {
    if s != [] {
      assert (s + [x])[1..] == s[1..] + [x];
      CountCharSnoc(s[1..], x, c);
    } else {
      assert [x][1..] == [];
    }
  }

  // ---------------------------------------------------------------------------
  // Replacing and deleting
  // ---------------------------------------------------------------------------

  /** Every occurrence of `a` becomes `b` (`replace(a, b)` with one-character arguments). */
  function ReplaceChar(s: string, a: char, b: char): (r: string)
    ensures |r| == |s|
    ensures forall i :: 0 <= i < |s| ==> r[i] == (if s[i] == a then b else s[i])
  {
    seq(|s|, i requires 0 <= i < |s| => if s[i] == a then b else s[i])
  }

  /** Every occurrence of `a` is removed (`replace(a, "")`). */
  function DeleteChar(s: string, a: char): (r: string)
    ensures a !in r
    ensures |r| == |s| - CountChar(s, a)
    ensures forall c :: c in r <==> c in s && c != a
  {
    if s == [] then [] else (if s[0] == a then [] else [s[0]]) + DeleteChar(s[1..], a)
  }

  /** Deleting a character that does not occur changes nothing. */
  lemma {:induction false} DeleteAbsentChar(s: string, a: char)
    requires a !in s
    ensures DeleteChar(s, a) == s
  {
    if s != [] {
      DeleteAbsentChar(s[1..], a);
    }
  }

  /** Deleting a character distributes over concatenation. */
  lemma {:induction false} DeleteCharAppend(a: string, b: string, c: char)
    ensures DeleteChar(a + b, c) == DeleteChar(a, c) + DeleteChar(b, c)
  {
    if a != [] {
      DeleteCharAppend(a[1..], b, c);
      assert (a + b)[1..] == a[1..] + b;
    } else {
      assert a + b == b;
    }
  }

  /** Only the first occurrence of `a` becomes `b` (JavaScript's `replace` with a string pattern). */
  function ReplaceFirstChar(s: string, a: char, b: char): (r: string)
    ensures |r| == |s|
    ensures a !in s ==> r == s
    ensures a in s ==> r == s[..IndexOf(s, a)] + [b] + s[IndexOf(s, a) + 1..]
  {
    var i := IndexOf(s, a);
    if i == |s| then s else s[..i] + [b] + s[i + 1..]
  }

  /** Every non-overlapping occurrence of `pat`, scanning left to right, becomes `rep`. */
  function ReplaceAll(s: string, pat: string, rep: string): string
    requires |pat| > 0
    decreases |s|
  {
    if |s| < |pat| then s
    else if s[..|pat|] == pat then rep + ReplaceAll(s[|pat|..], pat, rep)
    else [s[0]] + ReplaceAll(s[1..], pat, rep)
  }

  /** A pattern whose first character does not occur is never replaced. */
  lemma {:induction false} ReplaceAllAbsent(s: string, pat: string, rep: string)
    requires |pat| > 0 && pat[0] !in s
    ensures ReplaceAll(s, pat, rep) == s
  {
    if |s| >= |pat| {
      assert s[..|pat|][0] == s[0];
      ReplaceAllAbsent(s[1..], pat, rep);
    }
  }

  /** Replacing with a string that avoids `c`, in a string that avoids `c`, still avoids `c`. */
  lemma {:induction false} ReplaceAllKeepsAbsent(s: string, pat: string, rep: string, c: char)
    requires |pat| > 0 && c !in s && c !in rep
    ensures c !in ReplaceAll(s, pat, rep)
    decreases |s|
  {
    if |s| >= |pat| {
      if s[..|pat|] == pat {
        ReplaceAllKeepsAbsent(s[|pat|..], pat, rep, c);
      } else {
        ReplaceAllKeepsAbsent(s[1..], pat, rep, c);
      }
    }
  }

  /** Removes every whitespace character (`replace(/\s+/g, '')`). */
  function DeleteSpaces(s: string): (r: string)
    ensures forall i :: 0 <= i < |r| ==> !IsSpace(r[i])
    ensures |r| <= |s|
  {
    if s == [] then [] else (if IsSpace(s[0]) then [] else [s[0]]) + DeleteSpaces(s[1..])
  }

  // ---------------------------------------------------------------------------
  // Splitting and joining
  // ---------------------------------------------------------------------------

  /** `s.split(c)`: the pieces between occurrences of `c`; there is always at least one. */
  function Split(s: string, c: char): (r: seq<string>)
    ensures |r| == CountChar(s, c) + 1
    ensures forall i :: 0 <= i < |r| ==> c !in r[i]
  {
    if s == [] then [""]
    else
      var rest := Split(s[1..], c);
      if s[0] == c then [""] + rest else [[s[0]] + rest[0]] + rest[1..]
  }

  /** A string without the separator splits into itself. */
  lemma {:induction false} SplitNoSeparator(s: string, c: char)
    requires c !in s
    ensures Split(s, c) == [s]
  {
    if s != [] {
      SplitNoSeparator(s[1..], c);
      assert s == [s[0]] + s[1..];
    }
  }

  /** Splitting at the first separator: the piece before it, then the pieces of the rest. */
  lemma {:induction false} SplitAtSeparator(a: string, c: char, b: string)
    requires c !in a
    ensures Split(a + [c] + b, c) == [a] + Split(b, c)
  {
    if a == [] {
      assert a + [c] + b == [c] + b;
      assert ([c] + b)[1..] == b;
    } else {
      SplitAtSeparator(a[1..], c, b);
      assert (a + [c] + b)[1..] == a[1..] + [c] + b;
      assert a == [a[0]] + a[1..];
    }
  }

  /** `s.split(sep)` for a separator of any non-zero length, matched left to right. */
  function SplitOn(s: string, sep: string): (r: seq<string>)
    requires |sep| > 0
    ensures |r| >= 1
    decreases |s|
  {
    if |s| < |sep| then [s]
    else if s[..|sep|] == sep then [""] + SplitOn(s[|sep|..], sep)
    else
      var rest := SplitOn(s[1..], sep);
      [[s[0]] + rest[0]] + rest[1..]
  }

  /** `parts.join(sep)`. */
  function Join(parts: seq<string>, sep: string): string {
    if |parts| == 0 then ""
    else if |parts| == 1 then parts[0]
    else parts[0] + sep + Join(parts[1..], sep)
  }

  /** Prepending to the first piece prepends to the joined string. */
  lemma JoinPrependHead(a: string, parts: seq<string>, sep: string)
    requires |parts| >= 1
    ensures Join([a + parts[0]] + parts[1..], sep) == a + Join(parts, sep)
  {
    var q := [a + parts[0]] + parts[1..];
    assert q[1..] == parts[1..];
  }

  /** An empty first piece followed by more pieces joins to `sep` before the rest. */
  lemma JoinEmptyHead(parts: seq<string>, sep: string)
    requires |parts| >= 1
    ensures Join([""] + parts, sep) == sep + Join(parts, sep)
  {
    assert ([""] + parts)[1..] == parts;
  }

  /** Splitting on a character and joining with it gives back the string. */
  lemma {:induction false} JoinSplit(s: string, c: char)
    ensures Join(Split(s, c), [c]) == s
  {
    if s != [] {
      var rest := Split(s[1..], c);
      JoinSplit(s[1..], c);
      if s[0] == c {
        JoinEmptyHead(rest, [c]);
      } else {
        JoinPrependHead([s[0]], rest, [c]);
      }
      assert s == [s[0]] + s[1..];
    }
  }

  /** Splitting on a separator string and joining with it gives back the string. */
  lemma {:induction false} JoinSplitOn(s: string, sep: string)
    requires |sep| > 0
    ensures Join(SplitOn(s, sep), sep) == s
    decreases |s|
  {
    if |s| >= |sep| {
      if s[..|sep|] == sep {
        JoinSplitOn(s[|sep|..], sep);
        JoinEmptyHead(SplitOn(s[|sep|..], sep), sep);
        assert s == s[..|sep|] + s[|sep|..];
      } else {
        var rest := SplitOn(s[1..], sep);
        JoinSplitOn(s[1..], sep);
        JoinPrependHead([s[0]], rest, sep);
        assert s == [s[0]] + s[1..];
      }
    }
  }

  // ---------------------------------------------------------------------------
  // Ordering
  // ---------------------------------------------------------------------------

  /** Lexicographic order on code points, standing in for locale collation. */
  predicate LexLe(a: string, b: string)
    decreases |a|
  {
    if a == [] then true
    else if b == [] then false
    else if a[0] != b[0] then a[0] < b[0]
    else LexLe(a[1..], b[1..])
  }

  lemma {:induction false} LexLeTotal(a: string, b: string)
    ensures LexLe(a, b) || LexLe(b, a)
    decreases |a|
  {
    if a != [] && b != [] && a[0] == b[0] {
      LexLeTotal(a[1..], b[1..]);
    }
  }

  lemma {:induction false} LexLeTransitive(a: string, b: string, c: string)
    requires LexLe(a, b) && LexLe(b, c)
    ensures LexLe(a, c)
    decreases |a|
  {
    if a != [] && b != [] && c != [] && a[0] == b[0] && b[0] == c[0] {
      LexLeTransitive(a[1..], b[1..], c[1..]);
    }
  }

  // ---------------------------------------------------------------------------
  // Decimal formatting of integers
  // ---------------------------------------------------------------------------

  function DigitChar(d: nat): (c: char)
    requires d < 10
    ensures IsDigit(c)
  {
    ('0' as int + d) as char
  }

  /** Decimal digits of `n` without leading zeros (`str(n)` for `n >= 0`). */
  function NatToString(n: nat): (r: string)
    ensures |r| >= 1
    ensures forall i :: 0 <= i < |r| ==> IsDigit(r[i])
    decreases n
  {
    if n < 10 then [DigitChar(n)] else NatToString(n / 10) + [DigitChar(n % 10)]
  }

  /** `str(n)` / `String(n)` for an integer. */
  function IntToString(n: int): (r: string)
    ensures |r| >= 1
  {
    if n < 0 then "-" + NatToString(-n) else NatToString(n)
  }

  /** Two-digit zero-padded form (Python's `f"{n:02d}"`) for `n < 100`. */
  function Pad2(n: nat): (r: string)
    requires n < 100
    ensures |r| == 2 && IsDigit(r[0]) && IsDigit(r[1])
  {
    [DigitChar(n / 10), DigitChar(n % 10)]
  }

  /** Four-digit zero-padded form (`f"{n:04d}"`, the year of `date.isoformat()`) for `n < 10000`. */
  function Pad4(n: nat): (r: string)
    requires n < 10000
    ensures |r| == 4 && forall i :: 0 <= i < 4 ==> IsDigit(r[i])
  {
    Pad2(n / 100) + Pad2(n % 100)
  }

  /** Different natural numbers are written differently. */
  lemma {:induction false} NatToStringInjective(n: nat, m: nat)
    requires NatToString(n) == NatToString(m)
    ensures n == m
    decreases n
  {
    if n >= 10 && m >= 10 {
      var a := NatToString(n);
      assert a[..|a| - 1] == NatToString(n / 10) && a[|a| - 1] == DigitChar(n % 10);
      assert a[..|a| - 1] == NatToString(m / 10) && a[|a| - 1] == DigitChar(m % 10);
      NatToStringInjective(n / 10, m / 10);
    }
  }

  /** Different integers are written differently. */
  lemma IntToStringInjective(n: int, m: int)
    requires IntToString(n) == IntToString(m)
    ensures n == m
  {
    var a := IntToString(n);
    assert IsDigit(NatToString(if n < 0 then -n else n)[0]) && IsDigit(NatToString(if m < 0 then -m else m)[0]);
    assert (a[0] == '-') == (n < 0) == (m < 0);
    if n < 0 && m < 0 {
      assert a[1..] == NatToString(-n) && a[1..] == NatToString(-m);
      NatToStringInjective(-n, -m);
    } else if n >= 0 && m >= 0 {
      NatToStringInjective(n, m);
    }
  }

  /** An integer is written with digits and a minus sign only. */
  lemma IntToStringChars(n: int)
    ensures forall i :: 0 <= i < |IntToString(n)| ==> IsDigit(IntToString(n)[i]) || IntToString(n)[i] == '-'
  {
    if n < 0 {
      var d := NatToString(-n);
      assert forall i :: 1 <= i < |IntToString(n)| ==> IntToString(n)[i] == d[i - 1];
    }
  }

  /** Two texts that both run up to a first occurrence of `d` split there the same way. */
  lemma SplitAtFirst(a: string, x: string, c: string, y: string, d: char)
    requires d !in a && d !in c && a + [d] + x == c + [d] + y
    ensures a == c && x == y
  {
    var s := a + [d] + x;
    FirstOccurrence(a, x, d);
    FirstOccurrence(c, y, d);
    assert a == s[..|a|] && c == s[..|c|];
    assert x == s[|a| + 1..] && y == s[|c| + 1..];
  }

  lemma FirstOccurrence(a: string, x: string, d: char)
    requires d !in a
    ensures IndexOf(a + [d] + x, d) == |a|
  {
    var s := a + [d] + x;
    assert s[|a|] == d;
    assert forall k :: 0 <= k < |a| ==> s[k] == a[k];
  }

  /** Removing whitespace keeps only characters of the text. */
  lemma {:induction false} DeleteSpacesChars(s: string)
    ensures forall i :: 0 <= i < |DeleteSpaces(s)| ==> DeleteSpaces(s)[i] in s
  {
    if s != [] {
      DeleteSpacesChars(s[1..]);
      var head := if IsSpace(s[0]) then [] else [s[0]];
      assert DeleteSpaces(s) == head + DeleteSpaces(s[1..]);
      forall i | 0 <= i < |DeleteSpaces(s)|
        ensures DeleteSpaces(s)[i] in s
      {
        if i >= |head| {
          assert DeleteSpaces(s)[i] == DeleteSpaces(s[1..])[i - |head|];
          assert DeleteSpaces(s)[i] in s[1..];
        }
      }
    }
  }

  /** A text without whitespace loses nothing. */
  lemma {:induction false} DeleteSpacesNoSpace(s: string)
    requires forall i :: 0 <= i < |s| ==> !IsSpace(s[i])
    ensures DeleteSpaces(s) == s
  {
    if s != [] {
      DeleteSpacesNoSpace(s[1..]);
      assert s == [s[0]] + s[1..];
    }
  }
}

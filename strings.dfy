/** Text primitives shared by the Java backend and the Kotlin client: whitespace tests,
    Java `trim`, Kotlin `split`/`joinToString`, prefix and substring tests, ASCII lower-casing
    and the decimal integer conversions behind `Int.toString()` and `String.toIntOrNull()`.
    Character classes are restricted to ASCII. */
module Strings {
  import opened Wrappers
  import opened Sorting

  /** `Character.isWhitespace` (Java) and `Char.isWhitespace` (Kotlin) on ASCII:
      the controls 9 to 13, the separators 28 to 31 and the space. */
  predicate IsWhitespace(c: char)
  {
    9 <= c as int <= 13 || 28 <= c as int <= 32
  }

  /** `String.isBlank()`: every character is whitespace (so "" is blank). */
  predicate IsBlank(s: string)
  {
    forall i :: 0 <= i < |s| ==> IsWhitespace(s[i])
  }

  /** Spring's `StringUtils.hasText` on a non-null string. */
  predicate HasText(s: string)
  {
    !IsBlank(s)
  }

  /** Kotlin's `ifBlank { null }`: a blank text becomes `null`, any other is kept. */
  function NullIfBlank(s: string): (r: Option<string>)
    ensures r.None? <==> IsBlank(s)
    ensures r.Some? ==> r.value == s
  {
    if IsBlank(s) then None else Some(s)
  }

  /** The characters Java's `String.trim()` removes: code point at most U+0020. */
  predicate IsTrimmable(c: char)
  {
    c <= ' '
  }

  function TrimStart(s: string): (r: string)
    ensures |r| <= |s| && r == s[|s| - |r|..]
    ensures r == [] || !IsTrimmable(r[0])
    ensures forall i :: 0 <= i < |s| - |r| ==> IsTrimmable(s[i])
  {
    if |s| > 0 && IsTrimmable(s[0]) then TrimStart(s[1..]) else s
  }

  function TrimEnd(s: string): (r: string)
    ensures |r| <= |s| && r == s[..|r|]
    ensures r == [] || !IsTrimmable(r[|r| - 1])
    ensures forall i :: |r| <= i < |s| ==> IsTrimmable(s[i])
  {
    if |s| > 0 && IsTrimmable(s[|s| - 1]) then TrimEnd(s[..|s| - 1]) else s
  }

  /** Java's `String.trim()`: the longest infix that neither starts nor ends with a
      character at or below the space. */
  function Trim(s: string): (r: string)
    ensures |r| <= |s|
    ensures r == [] || (!IsTrimmable(r[0]) && !IsTrimmable(r[|r| - 1]))
    ensures r == [] <==> forall i :: 0 <= i < |s| ==> IsTrimmable(s[i])
  {
    var t := TrimStart(s);
    var r := TrimEnd(t);
    assert forall i :: |s| - |t| <= i < |s| ==> s[i] == t[i - (|s| - |t|)];
    r
  }

  /** Trimming is idempotent. */
  lemma TrimIdempotent(s: string)
    ensures Trim(Trim(s)) == Trim(s)
  {
    var r := Trim(s);
    if r != [] {
      assert TrimStart(r) == r;
      assert TrimEnd(r) == r;
    }
  }

  /** ASCII `Char.lowercaseChar()`/`Character.toLowerCase`. */
  function LowerChar(c: char): char
  {
    if 'A' <= c <= 'Z' then (c as int + 32) as char else c
  }

  /** `String.toLowerCase()` restricted to ASCII letters. */
  function ToLower(s: string): (r: string)
    ensures |r| == |s|
    ensures forall i :: 0 <= i < |s| ==> r[i] == LowerChar(s[i])
  {
    seq(|s|, i requires 0 <= i < |s| => LowerChar(s[i]))
  }

  /** `s.startsWith(prefix)`. */
  predicate StartsWith(s: string, prefix: string)
  {
    |prefix| <= |s| && s[..|prefix|] == prefix
  }

  /** `s.contains(sub)`: `sub` occurs at some position of `s`. */
  predicate Contains(s: string, sub: string)
    decreases |s|
  {
    StartsWith(s, sub) || (|s| > 0 && Contains(s[1..], sub))
  }

  /** `Contains` holds exactly when `sub` occurs at some index. */
  lemma {:induction false} ContainsAt(s: string, sub: string, k: nat)
    requires k + |sub| <= |s| && s[k..k + |sub|] == sub
    ensures Contains(s, sub)
    decreases k
  {
    if k > 0 {
      assert s[1..][k - 1..k - 1 + |sub|] == sub;
      ContainsAt(s[1..], sub, k - 1);
    }
  }

  /** A string containing `a + b` contains `a`. */
  lemma {:induction false} ContainsPrefixOf(s: string, a: string, b: string)
    requires Contains(s, a + b)
    ensures Contains(s, a)
    decreases |s|
  {
    if StartsWith(s, a + b) {
      assert s[..|a|] == (a + b)[..|a|];
    } else {
      ContainsPrefixOf(s[1..], a, b);
    }
  }

  /** Kotlin's `s.split(sep)` for a one-character delimiter: every piece, empty ones
      included, so the result is never empty. */
  function Split(s: string, sep: char): (parts: seq<string>)
    ensures |parts| >= 1
    ensures forall i :: 0 <= i < |parts| ==> sep !in parts[i]
    decreases |s|
  {
    if |s| == 0 then [""]
    else
      var rest := Split(s[1..], sep);
      if s[0] == sep then [""] + rest
      else [[s[0]] + rest[0]] + rest[1..]
  }

  /** Java's `String.split` on a one-character delimiter: the pieces between delimiters
      with the trailing empty ones dropped; a string without the delimiter is its own
      single piece. */
  function JavaSplit(s: string, sep: char): (parts: seq<string>)
    ensures forall i :: 0 <= i < |parts| ==> sep !in parts[i]
  {
    if s == "" then [""] else DropTrailingEmpty(Split(s, sep))
  }

  /** The pieces up to the last non-empty one. */
  function DropTrailingEmpty(parts: seq<string>): (r: seq<string>)
    ensures |r| <= |parts| && r == parts[..|r|]
    ensures |r| > 0 ==> r[|r| - 1] != ""
    ensures forall i :: |r| <= i < |parts| ==> parts[i] == ""
  {
    if |parts| > 0 && parts[|parts| - 1] == "" then DropTrailingEmpty(parts[..|parts| - 1]) else parts
  }

  /** Every piece of a split is empty exactly when the string is made of delimiters only. */
  lemma {:induction false} SplitAllEmpty(s: string, sep: char)
    ensures (forall i :: 0 <= i < |Split(s, sep)| ==> Split(s, sep)[i] == "") <==>
            (forall i :: 0 <= i < |s| ==> s[i] == sep)
    decreases |s|
  {
    if |s| > 0 {
      SplitAllEmpty(s[1..], sep);
      var rest := Split(s[1..], sep);
      if s[0] == sep {
        var parts := Split(s, sep);
        assert parts == [""] + rest;
        assert (forall i :: 0 <= i < |parts| ==> parts[i] == "") <==>
               (forall i :: 0 <= i < |rest| ==> rest[i] == "") by {
          assert forall i :: 0 <= i < |rest| ==> rest[i] == parts[i + 1];
        }
        assert (forall i :: 0 <= i < |s| ==> s[i] == sep) <==>
               (forall i :: 0 <= i < |s[1..]| ==> s[1..][i] == sep) by {
          assert forall i :: 0 <= i < |s[1..]| ==> s[1..][i] == s[i + 1];
        }
      } else {
        assert Split(s, sep)[0] == [s[0]] + rest[0];
      }
    }
  }

  /** A Java split of a non-empty string yields nothing exactly when the string is made of
      delimiters only; otherwise its first piece is the first piece of the full split. */
  lemma JavaSplitEmpty(s: string, sep: char)
    requires s != ""
    ensures |JavaSplit(s, sep)| == 0 <==> (forall i :: 0 <= i < |s| ==> s[i] == sep)
    ensures |JavaSplit(s, sep)| > 0 ==> JavaSplit(s, sep)[0] == Split(s, sep)[0]
  {
    SplitAllEmpty(s, sep);
  }

  /** Kotlin's `joinToString(sep)` over strings. */
  function Join(parts: seq<string>, sep: string): string
  {
    if |parts| == 0 then ""
    else if |parts| == 1 then parts[0]
    else parts[0] + sep + Join(parts[1..], sep)
  }

  /** Joining the pieces of a split with the delimiter gives back the string. */
  lemma {:induction false} JoinSplit(s: string, sep: char)
    ensures Join(Split(s, sep), [sep]) == s
    decreases |s|
  {
    if |s| > 0 {
      var rest := Split(s[1..], sep);
      JoinSplit(s[1..], sep);
      if s[0] == sep {
        assert Split(s, sep) == [""] + rest;
      } else {
        var parts := Split(s, sep);
        assert parts == [[s[0]] + rest[0]] + rest[1..];
        if |rest| == 1 {
          assert Join(parts, [sep]) == [s[0]] + rest[0];
        } else {
          assert Join(rest, [sep]) == rest[0] + [sep] + Join(rest[1..], [sep]);
          assert parts[1..] == rest[1..];
        }
      }
    }
  }

  /** Splitting a join gives back the pieces when no piece holds the delimiter. */
  lemma {:induction false} SplitJoin(parts: seq<string>, sep: char)
    requires |parts| >= 1
    requires forall i :: 0 <= i < |parts| ==> sep !in parts[i]
    ensures Split(Join(parts, [sep]), sep) == parts
    decreases |parts|, |parts[0]|
  {
    var p := parts[0];
    if |p| > 0 {
      var parts' := [p[1..]] + parts[1..];
      assert Join(parts, [sep]) == [p[0]] + Join(parts', [sep]) by {
        if |parts| > 1 {
          assert parts'[1..] == parts[1..];
        }
      }
      assert sep !in p[1..];
      assert forall i :: 0 <= i < |parts'| ==> sep !in parts'[i] by {
        forall i | 0 <= i < |parts'| ensures sep !in parts'[i] {
          if i > 0 {
            assert parts'[i] == parts[i];
          }
        }
      }
      SplitJoin(parts', sep);
      var j := Join(parts, [sep]);
      assert j[1..] == Join(parts', [sep]);
      assert [p[0]] + p[1..] == p;
      assert [[p[0]] + p[1..]] + parts[1..] == parts;
    } else if |parts| > 1 {
      var j := Join(parts, [sep]);
      assert j == [sep] + Join(parts[1..], [sep]);
      assert j[1..] == Join(parts[1..], [sep]);
      SplitJoin(parts[1..], sep);
    }
  }

  /** A string without the delimiter splits into itself alone. */
  lemma SplitWithoutSeparator(s: string, sep: char)
    ensures sep !in s ==> Split(s, sep) == [s]
  {
    if sep !in s {
      SplitJoin([s], sep);
    }
  }

  /** The pieces of `parts` that are not blank, in order: `filter { it.isNotBlank() }`. */
  function NonBlank(parts: seq<string>): (r: seq<string>)
    ensures |r| <= |parts|
    ensures forall i :: 0 <= i < |r| ==> !IsBlank(r[i])
  {
    if |parts| == 0 then []
    else if IsBlank(parts[0]) then NonBlank(parts[1..])
    else [parts[0]] + NonBlank(parts[1..])
  }

  lemma {:induction false} NonBlankKeepsNonBlank(parts: seq<string>)
    requires forall i :: 0 <= i < |parts| ==> !IsBlank(parts[i])
    ensures NonBlank(parts) == parts
  {
    if |parts| > 0 {
      NonBlankKeepsNonBlank(parts[1..]);
    }
  }

  // Decimal integers.

  predicate IsDigit(c: char)
  {
    '0' <= c <= '9'
  }

  function DigitChar(d: nat): char
    requires d < 10
  {
    ('0' as int + d) as char
  }

  function DigitValue(c: char): nat
    requires IsDigit(c)
  {
    c as int - '0' as int
  }

  /** The value of a string of decimal digits, most significant first. */
  function DigitsValue(s: string): nat
    requires forall i :: 0 <= i < |s| ==> IsDigit(s[i])
  {
    if |s| == 0 then 0 else 10 * DigitsValue(s[..|s| - 1]) + DigitValue(s[|s| - 1])
  }

  /** Decimal rendering of a natural number without leading zeros. */
  function NatToString(n: nat): (r: string)
    ensures |r| >= 1
    ensures forall i :: 0 <= i < |r| ==> IsDigit(r[i])
  {
    if n < 10 then [DigitChar(n)] else NatToString(n / 10) + [DigitChar(n % 10)]
  }

  /** `Int.toString()`: a leading '-' for negative values. */
  function IntToString(i: int): string
  {
    if i < 0 then "-" + NatToString(-i) else NatToString(i)
  }

  lemma {:induction false} DigitsOfNat(n: nat)
    ensures DigitsValue(NatToString(n)) == n
  {
    if n >= 10 {
      DigitsOfNat(n / 10);
      var s := NatToString(n);
      assert s[..|s| - 1] == NatToString(n / 10);
    }
  }

  const IntMin: int := -0x8000_0000
  const IntMax: int := 0x7FFF_FFFF

  /** Kotlin's `String.toIntOrNull()` with ASCII digits: an optional '+' or '-', then at
      least one digit; `None` for anything else and for values outside 32 bits. */
  function ParseInt(s: string): (r: Option<int>)
    ensures r.Some? ==> IntMin <= r.value <= IntMax
  {
    if |s| == 0 then None
    else
      var negative := s[0] == '-';
      var digits := if s[0] == '-' || s[0] == '+' then s[1..] else s;
      if |digits| == 0 || !(forall i :: 0 <= i < |digits| ==> IsDigit(digits[i])) then None
      else
        var v: int := if negative then -(DigitsValue(digits) as int) else DigitsValue(digits);
        if IntMin <= v <= IntMax then Some(v) else None
  }

  /** Decimal rendering and parsing are inverse on 32-bit integers. */
  lemma ParseIntToString(i: int)
    requires IntMin <= i <= IntMax
    ensures ParseInt(IntToString(i)) == Some(i)
  {
    if i < 0 {
      ParseNegativeToString(i);
    } else {
      ParseNatToString(i);
    }
  }

  lemma ParseNatToString(n: nat)
    requires n <= IntMax
    ensures ParseInt(NatToString(n)) == Some(n)
  {
    var s := NatToString(n);
    DigitsOfNat(n);
    assert IsDigit(s[0]);
  }

  lemma ParseNegativeToString(i: int)
    requires IntMin <= i < 0
    ensures ParseInt(IntToString(i)) == Some(i)
  {
    var n := NatToString(-i);
    DigitsOfNat(-i);
    assert IntToString(i)[0] == '-' && IntToString(i)[1..] == n;
  }

  /** `joinToString(sep)` over integers. */
  function JoinInts(xs: seq<int>, sep: string): string
  {
    Join(seq(|xs|, k requires 0 <= k < |xs| => IntToString(xs[k])), sep)
  }

  /** `mapNotNull { it.toIntOrNull() }`: the pieces that parse, as integers, in order. */
  function ParseInts(parts: seq<string>): (r: seq<int>)
    ensures |r| <= |parts|
  {
    if |parts| == 0 then []
    else
      match ParseInt(parts[0])
      case Some(v) => [v] + ParseInts(parts[1..])
      case None => ParseInts(parts[1..])
  }

  /** No integer rendering contains a comma. */
  lemma IntToStringHasNoComma(i: int)
    ensures ',' !in IntToString(i)
  {
    var s := IntToString(i);
    if i < 0 {
      var n := NatToString(-i);
      assert forall k :: 1 <= k < |s| ==> s[k] == n[k - 1];
    }
    assert forall k :: 0 <= k < |s| ==> s[k] == '-' || IsDigit(s[k]);
  }

  /** Reading back a comma-joined list of 32-bit integers gives the list. */
  lemma {:induction false} ParseJoinedInts(xs: seq<int>)
    requires forall k :: 0 <= k < |xs| ==> IntMin <= xs[k] <= IntMax
    ensures ParseInts(Split(JoinInts(xs, ","), ',')) == xs
  {
    var strs := seq(|xs|, k requires 0 <= k < |xs| => IntToString(xs[k]));
    if |xs| == 0 {
      assert Split(JoinInts(xs, ","), ',') == [""];
    } else {
      forall k | 0 <= k < |strs| ensures ',' !in strs[k] {
        IntToStringHasNoComma(xs[k]);
      }
      SplitJoin(strs, ',');
      ParseRendered(xs);
    }
  }

  lemma {:induction false} ParseRendered(xs: seq<int>)
    requires forall k :: 0 <= k < |xs| ==> IntMin <= xs[k] <= IntMax
    ensures ParseInts(seq(|xs|, k requires 0 <= k < |xs| => IntToString(xs[k]))) == xs
  {
    var strs := seq(|xs|, k requires 0 <= k < |xs| => IntToString(xs[k]));
    if |xs| > 0 {
      ParseIntToString(xs[0]);
      assert strs[1..] == seq(|xs[1..]|, k requires 0 <= k < |xs[1..]| => IntToString(xs[1..][k]));
      ParseRendered(xs[1..]);
    }
  }

  // Ordering.

  /** `a.compareTo(b) <= 0`: the first differing character decides, and a proper prefix
      comes first. */
  predicate LexLe(a: string, b: string)
    decreases |a|
  {
    if |a| == 0 then true
    else if |b| == 0 then false
    else if a[0] != b[0] then a[0] < b[0]
    else LexLe(a[1..], b[1..])
  }

  lemma {:induction false} LexLeReflexive(a: string)
    ensures LexLe(a, a)
  {
    if |a| > 0 {
      LexLeReflexive(a[1..]);
    }
  }

  lemma {:induction false} LexLeAntisymmetric(a: string, b: string)
    requires LexLe(a, b) && LexLe(b, a)
    ensures a == b
  {
    if |a| > 0 && |b| > 0 {
      LexLeAntisymmetric(a[1..], b[1..]);
      assert a == [a[0]] + a[1..] && b == [b[0]] + b[1..];
    }
  }

  lemma {:induction false} LexLeTransitive(a: string, b: string, c: string)
    requires LexLe(a, b) && LexLe(b, c)
    ensures LexLe(a, c)
  {
    if |a| > 0 && |b| > 0 && |c| > 0 && a[0] == b[0] && b[0] == c[0] {
      LexLeTransitive(a[1..], b[1..], c[1..]);
    }
  }

  lemma {:induction false} LexLeTotal(a: string, b: string)
    ensures LexLe(a, b) || LexLe(b, a)
  {
    if |a| > 0 && |b| > 0 && a[0] == b[0] {
      LexLeTotal(a[1..], b[1..]);
    }
  }

  /** String comparison is a total order, so sorting a list of strings has one result. */
  lemma LexLeTotalOrder()
    ensures TotalOrder(LexLe)
  {
    forall a ensures LexLe(a, a) {
      LexLeReflexive(a);
    }
    forall a, b | LexLe(a, b) && LexLe(b, a) ensures a == b {
      LexLeAntisymmetric(a, b);
    }
    forall a, b, c | LexLe(a, b) && LexLe(b, c) ensures LexLe(a, c) {
      LexLeTransitive(a, b, c);
    }
    forall a, b ensures LexLe(a, b) || LexLe(b, a) {
      LexLeTotal(a, b);
    }
  }

  /** The number of occurrences of `c` in `s`. */
  function CountChar(s: string, c: char): nat
  {
    if |s| == 0 then 0 else (if s[0] == c then 1 else 0) + CountChar(s[1..], c)
  }

  lemma {:induction false} CountCharConcat(a: string, b: string, c: char)
    ensures CountChar(a + b, c) == CountChar(a, c) + CountChar(b, c)
  {
    if |a| > 0 {
      assert (a + b)[1..] == a[1..] + b;
      CountCharConcat(a[1..], b, c);
    } else {
      assert a + b == b;
    }
  }

  /** Joining pieces free of `c` puts one copy of the separator's occurrences of `c`
      between each two pieces and no more. */
  lemma {:induction false} JoinCount(parts: seq<string>, sep: string, c: char)
    requires |parts| >= 1
    requires forall i :: 0 <= i < |parts| ==> c !in parts[i]
    ensures CountChar(Join(parts, sep), c) == (|parts| - 1) * CountChar(sep, c)
  {
    NoCountWithout(parts[0], c);
    if |parts| > 1 {
      JoinCount(parts[1..], sep, c);
      CountCharConcat(parts[0], sep, c);
      CountCharConcat(parts[0] + sep, Join(parts[1..], sep), c);
    }
  }

  lemma {:induction false} NoCountWithout(s: string, c: char)
    requires c !in s
    ensures CountChar(s, c) == 0
  {
    if |s| > 0 {
      NoCountWithout(s[1..], c);
    }
  }
}

/** The few Python string and integer operations the scraper relies on:
    substring tests, `str.replace(" ", "%20")`, `str.split`, `str.join`,
    `str(n)` and `int(s)`. Strings are sequences of characters. */
module Text {
  import opened Outcomes

  // ---------------------------------------------------------------------------
  // Substrings

  predicate StartsWith(s: string, prefix: string) {
    |prefix| <= |s| && s[..|prefix|] == prefix
  }

  /** Python's `sub in s`. */
  predicate Contains(s: string, sub: string)
    decreases |s|
  {
    StartsWith(s, sub) || (|s| > 0 && Contains(s[1..], sub))
  }

  /** Every character of a contained string occurs in the containing one. */
  lemma {:induction false} ContainsChars(s: string, sub: string, c: char)
    requires Contains(s, sub) && c in sub
    ensures c in s
    decreases |s|
  {
    if StartsWith(s, sub) {
      var k :| 0 <= k < |sub| && sub[k] == c;
      assert s[k] == c;
    } else {
      ContainsChars(s[1..], sub, c);
    }
  }

  /** Number of occurrences of the character `c` (Python's `s.count(c)`). */
  function Count(s: string, c: char): (n: nat)
    ensures n <= |s|
    ensures n == 0 <==> c !in s
  {
    if s == [] then 0 else (if s[0] == c then 1 else 0) + Count(s[1..], c)
  }

  lemma {:induction false} CountAppend(a: string, b: string, c: char)
    ensures Count(a + b, c) == Count(a, c) + Count(b, c)
    decreases |a|
  {
    if a == [] {
      assert a + b == b;
    } else {
      assert (a + b)[1..] == a[1..] + b;
      CountAppend(a[1..], b, c);
    }
  }

  // ---------------------------------------------------------------------------
  // Percent-encoding of spaces: `s.replace(" ", "%20")`

  function EncodeSpaces(s: string): (r: string)
  {
    if s == [] then []
    else (if s[0] == ' ' then "%20" else [s[0]]) + EncodeSpaces(s[1..])
  }

  /** Encoding removes every space, adds two characters per space, and keeps
      a space-free string as it is. */
  lemma {:induction false} EncodeSpacesSpec(s: string)
    ensures ' ' !in EncodeSpaces(s)
    ensures |EncodeSpaces(s)| == |s| + 2 * Count(s, ' ')
    ensures ' ' !in s ==> EncodeSpaces(s) == s
    decreases |s|
  {
    if s != [] {
      EncodeSpacesSpec(s[1..]);
      var head := if s[0] == ' ' then "%20" else [s[0]];
      assert ' ' !in head;
      assert EncodeSpaces(s) == head + EncodeSpaces(s[1..]);
      if ' ' !in s {
        assert ' ' !in s[1..];
        assert s == [s[0]] + s[1..];
      }
    }
  }

  /** Encoding works character by character, so it distributes over `+`. */
  lemma {:induction false} EncodeSpacesAppend(a: string, b: string)
    ensures EncodeSpaces(a + b) == EncodeSpaces(a) + EncodeSpaces(b)
    decreases |a|
  {
    if a == [] {
      assert a + b == b;
    } else {
      assert (a + b)[0] == a[0];
      assert (a + b)[1..] == a[1..] + b;
      EncodeSpacesAppend(a[1..], b);
    }
  }

  /** Appending space-free text commutes with encoding. */
  lemma EncodeSpacesSuffix(head: string, tail: string)
    requires ' ' !in tail
    ensures EncodeSpaces(head + tail) == EncodeSpaces(head) + tail
  {
    EncodeSpacesAppend(head, tail);
    EncodeSpacesSpec(tail);
  }

  // ---------------------------------------------------------------------------
  // Joining and splitting

  /** Python's `sep.join(parts)`. */
  function Join(sep: string, parts: seq<string>): (r: string)
    ensures parts == [] ==> r == ""
    ensures |parts| == 1 ==> r == parts[0]
  {
    if parts == [] then ""
    else if |parts| == 1 then parts[0]
    else parts[0] + sep + Join(sep, parts[1..])
  }

  /** Python's `s.split("\n")`: the pieces between newline characters, always
      at least one (an empty string splits into `[""]`). */
  function SplitLines(s: string): (r: seq<string>)
    ensures |r| >= 1
  {
    if s == [] then [""]
    else
      var rest := SplitLines(s[1..]);
      if s[0] == '\n' then [""] + rest
      else [[s[0]] + rest[0]] + rest[1..]
  }

  /** Splitting yields one piece more than there are newlines, no piece holds
      a newline, and joining the pieces back with newlines gives the input. */
  lemma SplitLinesSpec(s: string)
    ensures |SplitLines(s)| == Count(s, '\n') + 1
    ensures forall k :: 0 <= k < |SplitLines(s)| ==> '\n' !in SplitLines(s)[k]
    ensures Join("\n", SplitLines(s)) == s
  {
    SplitLinesCount(s);
    SplitLinesPieces(s);
    SplitLinesJoin(s);
  }

  lemma {:induction false} SplitLinesCount(s: string)
    ensures |SplitLines(s)| == Count(s, '\n') + 1
    decreases |s|
  {
    if s != [] {
      SplitLinesCount(s[1..]);
    }
  }

  lemma {:induction false} SplitLinesPieces(s: string)
    ensures forall k :: 0 <= k < |SplitLines(s)| ==> '\n' !in SplitLines(s)[k]
    decreases |s|
  {
    if s != [] {
      var rest := SplitLines(s[1..]);
      SplitLinesPieces(s[1..]);
      var r := SplitLines(s);
      if s[0] == '\n' {
        assert r == [""] + rest;
        forall k | 0 <= k < |r| ensures '\n' !in r[k] {
          if k > 0 {
            assert r[k] == rest[k - 1];
          }
        }
      } else {
        assert r == [[s[0]] + rest[0]] + rest[1..];
        forall k | 0 <= k < |r| ensures '\n' !in r[k] {
          if k > 0 {
            assert r[k] == rest[k];
          }
        }
      }
    }
  }

  lemma {:induction false} SplitLinesJoin(s: string)
    ensures Join("\n", SplitLines(s)) == s
    decreases |s|
  {
    if s != [] {
      var rest := SplitLines(s[1..]);
      SplitLinesJoin(s[1..]);
      var r := SplitLines(s);
      assert s == [s[0]] + s[1..];
      if s[0] == '\n' {
        assert r == [""] + rest;
        assert r[1..] == rest;
        assert Join("\n", r) == "" + "\n" + Join("\n", rest);
      } else {
        assert r == [[s[0]] + rest[0]] + rest[1..];
        if |rest| == 1 {
          assert Join("\n", r) == [s[0]] + rest[0];
        } else {
          assert r[1..] == rest[1..];
          assert Join("\n", rest) == rest[0] + "\n" + Join("\n", rest[1..]);
          assert Join("\n", r) == ([s[0]] + rest[0]) + "\n" + Join("\n", rest[1..]);
        }
      }
    }
  }

  // ---------------------------------------------------------------------------
  // Decimal integers: `str(n)` and `int(s)`

  predicate IsDigit(c: char) {
    '0' <= c <= '9'
  }

  function DigitValue(c: char): (d: nat)
    requires IsDigit(c)
    ensures d < 10
  {
    c as int - '0' as int
  }

  function DigitChar(d: nat): (c: char)
    requires d < 10
    ensures IsDigit(c) && DigitValue(c) == d
  {
    ('0' as int + d) as char
  }

  /** Decimal digits of `n`, without leading zeros. */
  function NatToString(n: nat): (r: string)
    ensures |r| >= 1
    ensures forall k :: 0 <= k < |r| ==> IsDigit(r[k])
  {
    if n < 10 then [DigitChar(n)] else NatToString(n / 10) + [DigitChar(n % 10)]
  }

  /** Python's `str(n)` for an integer. */
  function IntToString(n: int): (r: string)
  {
    if n < 0 then "-" + NatToString(-n) else NatToString(n)
  }

  predicate AllDigits(s: string) {
    forall k :: 0 <= k < |s| ==> IsDigit(s[k])
  }

  /** Value of a non-empty string of decimal digits. */
  function DigitsValue(s: string): (n: nat)
    requires |s| >= 1 && AllDigits(s)
  {
    if |s| == 1 then DigitValue(s[0])
    else DigitsValue(s[..|s| - 1]) * 10 + DigitValue(s[|s| - 1])
  }

  /** Python's `int(s)` on text: an optional sign followed by at least one
      ASCII digit; anything else raises `ValueError`. */
  function ParseInt(s: string): (r: Option<int>)
  {
    if |s| >= 1 && (s[0] == '-' || s[0] == '+') then
      (if |s| >= 2 && AllDigits(s[1..]) then
         var v := DigitsValue(s[1..]) as int;
         Some(if s[0] == '-' then -v else v)
       else None)
    else if |s| >= 1 && AllDigits(s) then Some(DigitsValue(s))
    else None
  }

  lemma {:induction false} DigitsOfNat(n: nat)
    ensures DigitsValue(NatToString(n)) == n
    decreases n
  {
    if n >= 10 {
      var r := NatToString(n);
      assert r[..|r| - 1] == NatToString(n / 10);
      DigitsOfNat(n / 10);
    }
  }

  /** `int(str(n)) == n`: the printed page number reads back as itself. */
  lemma IntRoundTrip(n: int)
    ensures ParseInt(IntToString(n)) == Some(n)
  {
    var s := IntToString(n);
    if n < 0 {
      var digits := NatToString(-n);
      assert s[0] == '-' && s[1..] == digits;
      assert AllDigits(digits);
      DigitsOfNat(-n);
      assert ParseInt(s) == Some(-(DigitsValue(digits) as int));
    } else {
      assert IsDigit(s[0]) && AllDigits(s);
      DigitsOfNat(n);
    }
  }

  /** The text `str(n)` never holds a space, so percent-encoding leaves it alone. */
  lemma IntToStringHasNoSpace(n: int)
    ensures ' ' !in IntToString(n)
  {
    var s := IntToString(n);
    if n < 0 {
      var digits := NatToString(-n);
      assert s == "-" + digits;
      assert forall k :: 1 <= k < |s| ==> s[k] == digits[k - 1];
    }
  }
}

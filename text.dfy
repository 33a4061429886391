/** The string operations the handlers use: `split`/`join` on one separator
    character, digit filtering, decimal rendering with `padStart`, the numeric
    readings `Number(s)` and `parseInt(s)` of digit strings, and ASCII
    case-insensitive substring search. */
module Text {
  import opened Values

  /** `s.split(c)`: the maximal pieces between occurrences of `c`; the empty
      string splits into one empty piece. */
  function Split(s: string, c: char): (parts: seq<string>)
    ensures |parts| >= 1
    ensures forall i :: 0 <= i < |parts| ==> c !in parts[i]
  {
    if |s| == 0 then [""]
    else
      var rest := Split(s[1..], c);
      if s[0] == c then [""] + rest else [[s[0]] + rest[0]] + rest[1..]
  }

  /** `parts.join(c)`. */
  function Join(parts: seq<string>, c: char): string
    requires |parts| >= 1
  {
    if |parts| == 1 then parts[0] else parts[0] + [c] + Join(parts[1..], c)
  }

  lemma {:induction false} JoinSplit(s: string, c: char)
    ensures Join(Split(s, c), c) == s
  {
    if |s| > 0 {
      JoinSplit(s[1..], c);
      var rest := Split(s[1..], c);
      if s[0] == c {
        assert Split(s, c)[1..] == rest;
      } else {
        var parts := Split(s, c);
        assert parts[1..] == rest[1..];
        if |rest| == 1 {
          assert parts == [[s[0]] + rest[0]];
        } else {
          assert Join(rest, c) == rest[0] + [c] + Join(rest[1..], c);
        }
      }
      assert s == [s[0]] + s[1..];
    }
  }

  /** Splitting a piece free of `c` followed by `c` and more text. */
  lemma {:induction false} SplitCons(a: string, rest: string, c: char)
    requires c !in a
    ensures Split(a + [c] + rest, c) == [a] + Split(rest, c)
    ensures Split(a, c) == [a]
  {
    if |a| > 0 {
      SplitCons(a[1..], rest, c);
      assert (a + [c] + rest)[1..] == a[1..] + [c] + rest;
      assert [a[0]] + a[1..] == a;
    } else {
      assert a + [c] + rest == [c] + rest;
      assert ([c] + rest)[1..] == rest;
    }
  }

  lemma {:induction false} SplitJoin(parts: seq<string>, c: char)
    requires |parts| >= 1
    requires forall i :: 0 <= i < |parts| ==> c !in parts[i]
    ensures Split(Join(parts, c), c) == parts
  {
    if |parts| == 1 {
      SplitCons(parts[0], "", c);
    } else {
      SplitJoin(parts[1..], c);
      SplitCons(parts[0], Join(parts[1..], c), c);
      assert parts == [parts[0]] + parts[1..];
    }
  }

  /** A character absent from `s` is absent from every piece of its split. */
  lemma {:induction false} SplitKeepsAbsent(s: string, c: char, x: char)
    requires x !in s
    ensures forall i :: 0 <= i < |Split(s, c)| ==> x !in Split(s, c)[i]
  {
    if |s| > 0 {
      SplitKeepsAbsent(s[1..], c, x);
      assert x !in s[1..] by {
        assert forall k :: 0 <= k < |s| - 1 ==> s[1..][k] == s[k + 1];
      }
    }
  }

  /** Three pieces free of `c`, joined by `c`, split back into themselves. */
  lemma Split3(a: string, b: string, d: string, c: char)
    requires c !in a && c !in b && c !in d
    ensures Split(a + [c] + b + [c] + d, c) == [a, b, d]
  {
    var tail := b + [c] + d;
    assert a + [c] + b + [c] + d == a + [c] + tail;
    SplitCons(a, tail, c);
    SplitCons(b, d, c);
    SplitCons(d, "", c);
  }

  predicate IsDigit(ch: char)
  {
    '0' <= ch <= '9'
  }

  predicate AllDigits(s: string)
  {
    forall i :: 0 <= i < |s| ==> IsDigit(s[i])
  }

  /** `s.replace(/\D/g, '')`: the digits of `s`, in order. */
  function DigitsOnly(s: string): (r: string)
    ensures AllDigits(r)
    ensures |r| <= |s|
    ensures AllDigits(s) ==> r == s
  {
    if |s| == 0 then ""
    else if IsDigit(s[0]) then [s[0]] + DigitsOnly(s[1..])
    else DigitsOnly(s[1..])
  }

  /** `s` with every occurrence of `c` removed. */
  function Remove(s: string, c: char): (r: string)
    ensures c !in r
    ensures |r| <= |s|
  {
    if |s| == 0 then ""
    else if s[0] == c then Remove(s[1..], c)
    else [s[0]] + Remove(s[1..], c)
  }

  lemma {:induction false} RemoveAppend(a: string, b: string, c: char)
    ensures Remove(a + b, c) == Remove(a, c) + Remove(b, c)
  {
    if |a| > 0 {
      RemoveAppend(a[1..], b, c);
      assert (a + b)[1..] == a[1..] + b;
    } else {
      assert a + b == b;
    }
  }

  lemma {:induction false} RemoveAbsent(s: string, c: char)
    requires c !in s
    ensures Remove(s, c) == s
  {
    if |s| > 0 {
      RemoveAbsent(s[1..], c);
      assert s == [s[0]] + s[1..];
    }
  }

  function DigitChar(n: nat): char
    requires n < 10
  {
    ['0', '1', '2', '3', '4', '5', '6', '7', '8', '9'][n]
  }

  function DigitValue(ch: char): (n: nat)
    requires IsDigit(ch)
    ensures n < 10
  {
    (ch as int - '0' as int) as nat
  }

  /** The number a non-empty or empty digit string denotes (empty means 0). */
  function DigitsValue(s: string): nat
    requires AllDigits(s)
  {
    if |s| == 0 then 0 else DigitsValue(s[..|s| - 1]) * 10 + DigitValue(s[|s| - 1])
  }

  /** `String(n)` for a natural number. */
  function NatToString(n: nat): (s: string)
    ensures |s| >= 1 && AllDigits(s)
  {
    if n < 10 then [DigitChar(n)] else NatToString(n / 10) + [DigitChar(n % 10)]
  }

  lemma {:induction false} NatToStringValue(n: nat)
    ensures DigitsValue(NatToString(n)) == n
  {
    var s := NatToString(n);
    if n >= 10 {
      NatToStringValue(n / 10);
      assert s[..|s| - 1] == NatToString(n / 10);
    }
  }

  /** `String(n)` for an integer: a minus sign before a negative one. */
  function IntText(n: int): string
  {
    if n < 0 then "-" + NatToString(-n) else NatToString(n)
  }

  /** `String(n).padStart(2, '0')`. */
  function Pad2(n: nat): (s: string)
    ensures |s| >= 2 && AllDigits(s) && DigitsValue(s) == n
    ensures n < 100 ==> |s| == 2
  {
    NatToStringValue(n);
    var t := NatToString(n);
    if n < 10 then
      assert DigitsValue(['0'] + t) == n by {
        assert (['0'] + t)[..1] == ['0'];
      }
      ['0'] + t
    else
      assert n < 100 ==> t == NatToString(n / 10) + [DigitChar(n % 10)] && |NatToString(n / 10)| == 1;
      t
  }

  /** `Number(s)` for the inputs the forms produce: the empty string is 0, a
      digit string is its value, anything else is `NaN` (`None`). */
  function JsNumber(s: string): (r: Option<nat>)
    ensures r.None? <==> !AllDigits(s)
    ensures AllDigits(s) ==> r == Some(DigitsValue(s))
  {
    if AllDigits(s) then Some(DigitsValue(s)) else None
  }

  /** The longest prefix of `s` made of digits. */
  function LeadingDigits(s: string): (r: string)
    ensures AllDigits(r) && r <= s
    ensures |r| < |s| ==> !IsDigit(s[|r|])
  {
    if |s| == 0 || !IsDigit(s[0]) then "" else [s[0]] + LeadingDigits(s[1..])
  }

  /** `parseInt(s)` for unsigned input: the value of the leading digits, or
      `NaN` (`None`) when `s` does not start with a digit. */
  function JsParseInt(s: string): (r: Option<nat>)
    ensures r.None? <==> (|s| == 0 || !IsDigit(s[0]))
  {
    var d := LeadingDigits(s);
    if |d| == 0 then None else Some(DigitsValue(d))
  }

  function ToLowerChar(ch: char): char
  {
    if 'A' <= ch <= 'Z' then (ch as int - 'A' as int + 'a' as int) as char else ch
  }

  /** ASCII lower-casing. */
  function ToLower(s: string): (r: string)
    ensures |r| == |s|
    ensures forall i :: 0 <= i < |s| ==> r[i] == ToLowerChar(s[i])
  {
    if |s| == 0 then "" else [ToLowerChar(s[0])] + ToLower(s[1..])
  }

  predicate OccursAt(hay: string, needle: string, i: int)
  {
    0 <= i <= |hay| - |needle| && hay[i..i + |needle|] == needle
  }

  /** `hay.includes(needle)`. */
  predicate Contains(hay: string, needle: string)
  {
    exists i :: 0 <= i <= |hay| && OccursAt(hay, needle, i)
  }

  /** Case-insensitive `contains` (ASCII letters only). */
  predicate ContainsInsensitive(hay: string, needle: string)
  {
    Contains(ToLower(hay), ToLower(needle))
  }

  /** `n || d` for a value read with `Number(...)`: `NaN` and 0 are falsy. */
  function NumberOr(n: Option<nat>, d: nat): (r: nat)
    ensures n.Some? && n.value != 0 ==> r == n.value
    ensures n.None? || n.value == 0 ==> r == d
  {
    if n.Some? && n.value != 0 then n.value else d
  }

  /** `s.split(sep).map(Number)`, first two pieces; a missing piece is `NaN`. */
  function LeadingNumbers(s: string, sep: char): (pair: (Option<nat>, Option<nat>))
    ensures pair.0 == JsNumber(Split(s, sep)[0])
    ensures |Split(s, sep)| >= 2 ==> pair.1 == JsNumber(Split(s, sep)[1])
    ensures |Split(s, sep)| < 2 ==> pair.1.None?
  {
    var parts := Split(s, sep);
    (JsNumber(parts[0]), if |parts| >= 2 then JsNumber(parts[1]) else None)
  }

  /** `const [h, m] = s.split(':').map(Number)`. */
  function HourMinute(s: string): (Option<nat>, Option<nat>)
  {
    LeadingNumbers(s, ':')
  }

  /** "hh:mm" reads back as its hour and minute. */
  lemma HourMinuteOfClock(h: nat, m: nat)
    requires h < 100 && m < 100
    ensures HourMinute(Pad2(h) + ":" + Pad2(m)) == (Some(h), Some(m))
  {
    var parts := [Pad2(h), Pad2(m)];
    assert ':' !in Pad2(h) && ':' !in Pad2(m) by {
      assert forall i :: 0 <= i < |Pad2(h)| ==> IsDigit(Pad2(h)[i]);
      assert forall i :: 0 <= i < |Pad2(m)| ==> IsDigit(Pad2(m)[i]);
    }
    assert Join(parts, ':') == Pad2(h) + ":" + Pad2(m) by {
      assert parts[1..] == [Pad2(m)];
    }
    SplitJoin(parts, ':');
  }
}

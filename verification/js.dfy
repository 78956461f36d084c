/** The few JavaScript built-ins the dashboards lean on, with the semantics
    they have on the inputs the dashboards feed them: numbers as produced by
    `parseInt` and `Number` (an integer or NaN), truthiness, decimal digit
    strings, `toLowerCase`, `includes` and `split` by one character. */
module Js {
  import opened Wrappers

  /** A JavaScript number as far as this model needs one: every number the
      dashboards produce comes from `parseInt` or `Number` applied to a form
      string, so it is an integer or NaN. */
  datatype Num = NaN | Int(n: int)

  /** JavaScript truthiness of an optional number: `undefined`, NaN and 0
      are falsy, every other number is truthy. */
  predicate Truthy(x: Option<Num>)
  {
    x.Some? && x.value.Int? && x.value.n != 0
  }

  /** `a || b` on optional numbers. */
  function OrNum(a: Option<Num>, b: Option<Num>): Option<Num>
  {
    if Truthy(a) then a else b
  }

  /** `a || b` on strings: the empty string is the only falsy string. */
  function OrStr(a: string, b: string): string
  {
    if a != "" then a else b
  }

  /** The text a template literal shows for an optional string. */
  function Show(x: Option<string>): string
  {
    match x
    case Some(s) => s
    case None => "undefined"
  }

  // ---------------------------------------------------------------- digits

  predicate IsDigit(c: char)
  {
    '0' <= c <= '9'
  }

  predicate AllDigits(s: string)
  {
    forall i :: 0 <= i < |s| ==> IsDigit(s[i])
  }

  function DigitValue(c: char): nat
    requires IsDigit(c)
  {
    (c as int) - ('0' as int)
  }

  function DigitChar(d: nat): (c: char)
    requires d < 10
    ensures IsDigit(c) && DigitValue(c) == d
  {
    (('0' as int) + d) as char
  }

  /** The value of a string of decimal digits, most significant first. */
  function DigitsValue(s: string): nat
    requires AllDigits(s)
  {
    if s == [] then 0 else DigitsValue(s[..|s| - 1]) * 10 + DigitValue(s[|s| - 1])
  }

  /** `n.toString()` for a natural number: its decimal digits without
      leading zeros. */
  function NatToString(n: nat): (s: string)
    ensures |s| >= 1 && AllDigits(s)
    ensures DigitsValue(s) == n
    ensures n < 10 <==> |s| == 1
  {
    if n < 10 then [DigitChar(n)]
    else
      var prefix := NatToString(n / 10);
      var s := prefix + [DigitChar(n % 10)];
      assert s[..|s| - 1] == prefix;
      s
  }

  /** Length of the longest prefix of `s` made of decimal digits. */
  function DigitPrefixLen(s: string): (k: nat)
    ensures k <= |s|
    ensures AllDigits(s[..k])
    ensures k < |s| ==> !IsDigit(s[k])
  {
    if s == [] || !IsDigit(s[0]) then 0
    else
      var k := 1 + DigitPrefixLen(s[1..]);
      assert forall i :: 1 <= i < k ==> s[..k][i] == s[1..][..k - 1][i - 1];
      k
  }

  /** `parseInt(s)` with the default radix on a string without leading
      blanks: an optional sign followed by the longest run of decimal
      digits; NaN when that run is empty. */
  function ParseInt(s: string): (r: Num)
    ensures s == "" ==> r == NaN
    ensures s != "" && AllDigits(s) ==> r == Int(DigitsValue(s))
    ensures |s| >= 2 && s[0] == '-' && AllDigits(s[1..]) ==> r == Int(-(DigitsValue(s[1..]) as int))
    ensures |s| > 0 && !IsDigit(s[0]) && s[0] != '-' && s[0] != '+' ==> r == NaN
  {
    var negative := |s| > 0 && s[0] == '-';
    var body := if |s| > 0 && (s[0] == '-' || s[0] == '+') then s[1..] else s;
    var k := DigitPrefixLen(body);
    assert AllDigits(body) ==> k == |body| && body[..k] == body by {
      if AllDigits(body) {
        DigitPrefixLenOfDigits(body);
      }
    }
    if k == 0 then NaN
    else
      var v: int := DigitsValue(body[..k]);
      Int(if negative then -v else v)
  }

  /** `Number(v)` for the value of a form control: `null` reads as 0, a
      string of decimal digits (the empty string included) as its value, and
      anything else as NaN. */
  function NumberOf(v: Option<string>): (r: Num)
    ensures v.None? || v == Some("") ==> r == Int(0)
    ensures v.Some? && AllDigits(v.value) ==> r == Int(DigitsValue(v.value))
    ensures v.Some? && !AllDigits(v.value) ==> r == NaN
  {
    match v
    case None => Int(0)
    case Some(s) => if AllDigits(s) then Int(DigitsValue(s)) else NaN
  }

  lemma {:induction false} DigitPrefixLenOfDigits(s: string)
    requires AllDigits(s)
    ensures DigitPrefixLen(s) == |s|
  {
    if s != [] {
      DigitPrefixLenOfDigits(s[1..]);
    }
  }

  /** `parseInt` reads back what `toString` wrote. */
  lemma ParseIntOfNatToString(n: nat)
    ensures ParseInt(NatToString(n)) == Int(n)
  {
    var s := NatToString(n);
    DigitPrefixLenOfDigits(s);
    assert s[..|s|] == s;
  }

  /** The digit run ends where the first non-digit starts. */
  lemma {:induction false} DigitPrefixLenStops(d: string, t: string)
    requires AllDigits(d)
    requires t == "" || !IsDigit(t[0])
    ensures DigitPrefixLen(d + t) == |d|
    decreases |d|
  {
    if d == [] {
      assert d + t == t;
    } else {
      assert (d + t)[1..] == d[1..] + t;
      DigitPrefixLenStops(d[1..], t);
    }
  }

  /** `parseInt` stops at the first non-digit: a digit run followed by any
      text that does not start with a digit reads as the run's value. */
  lemma ParseIntStopsAtNonDigit(d: string, t: string)
    requires d != "" && AllDigits(d)
    requires t == "" || !IsDigit(t[0])
    ensures ParseInt(d + t) == Int(DigitsValue(d))
  {
    DigitPrefixLenStops(d, t);
    assert (d + t)[0] == d[0];
    assert (d + t)[..|d|] == d;
  }

  /** `Number` and `parseInt` agree on a non-empty run of digits and part
      on the empty text, which `Number` reads as 0 and `parseInt` as NaN. */
  lemma NumberAgreesWithParseInt(s: string)
    ensures s != "" && AllDigits(s) ==> NumberOf(Some(s)) == ParseInt(s)
    ensures NumberOf(Some("")) == Int(0) && ParseInt("") == NaN
  {
  }

  /** `Number` reads back what `toString` wrote. */
  lemma NumberOfNatToString(n: nat)
    ensures NumberOf(Some(NatToString(n))) == Int(n)
  {
  }

  // --------------------------------------------------------------- strings

  function LowerChar(c: char): char
  {
    if 'A' <= c <= 'Z' then ((c as int) + 32) as char else c
  }

  /** `toLowerCase()` on the ASCII letters. */
  function Lower(s: string): string
  {
    seq(|s|, i requires 0 <= i < |s| => LowerChar(s[i]))
  }

  lemma LowerConcat(a: string, b: string)
    ensures Lower(a + b) == Lower(a) + Lower(b)
  {
  }

  /** Lower-casing twice is lower-casing once. */
  lemma LowerIdempotent(s: string)
    ensures Lower(Lower(s)) == Lower(s)
  {
  }

  predicate StartsWith(s: string, t: string)
  {
    |t| <= |s| && s[..|t|] == t
  }

  /** `s.includes(t)`, scanning the start positions of `s` left to right. */
  predicate Includes(s: string, t: string)
    decreases |s|
  {
    StartsWith(s, t) || (|s| > 0 && Includes(s[1..], t))
  }

  /** `t` occurs in `s` starting at index `i`. */
  ghost predicate OccursAt(s: string, t: string, i: int)
  {
    0 <= i && i + |t| <= |s| && s[i..i + |t|] == t
  }

  /** `Includes` agrees with the positional definition of a substring. */
  lemma {:induction false} IncludesIff(s: string, t: string)
    ensures Includes(s, t) <==> exists i :: OccursAt(s, t, i)
    decreases |s|
  {
    if StartsWith(s, t) {
      assert OccursAt(s, t, 0);
    } else if |s| == 0 {
      assert forall i :: !OccursAt(s, t, i);
    } else {
      IncludesIff(s[1..], t);
      if Includes(s[1..], t) {
        var i :| OccursAt(s[1..], t, i);
        assert s[i + 1..i + 1 + |t|] == s[1..][i..i + |t|];
        assert OccursAt(s, t, i + 1);
      } else {
        forall i | OccursAt(s, t, i)
          ensures false
        {
          assert i != 0;
          assert s[1..][i - 1..i - 1 + |t|] == s[i..i + |t|];
          assert OccursAt(s[1..], t, i - 1);
        }
      }
    }
  }

  /** A string that includes `t + u` includes `t`. */
  lemma IncludesPrefix(s: string, t: string, u: string)
    requires Includes(s, t + u)
    ensures Includes(s, t)
  {
    IncludesIff(s, t + u);
    var i :| OccursAt(s, t + u, i);
    assert s[i..i + |t|] == (t + u)[..|t|];
    assert OccursAt(s, t, i);
    IncludesIff(s, t);
  }

  // ----------------------------------------------------------------- split

  /** The inverse of `split`: the parts glued back with the separator. */
  function Join(parts: seq<string>, sep: char): string
    requires |parts| >= 1
    decreases |parts|
  {
    if |parts| == 1 then parts[0] else parts[0] + [sep] + Join(parts[1..], sep)
  }

  /** `s.split(sep)` for a one-character separator. */
  function Split(s: string, sep: char): (parts: seq<string>)
    ensures |parts| >= 1
    ensures forall k :: 0 <= k < |parts| ==> sep !in parts[k]
    ensures Join(parts, sep) == s
    decreases |s|
  {
    if s == [] then [""]
    else
      var rest := Split(s[1..], sep);
      if s[0] == sep then
        var parts := [""] + rest;
        assert parts[1..] == rest;
        parts
      else
        var parts := [[s[0]] + rest[0]] + rest[1..];
        assert |rest| > 1 ==> parts[1..] == rest[1..];
        assert |rest| > 1 ==> Join(rest, sep) == rest[0] + [sep] + Join(rest[1..], sep);
        assert s == [s[0]] + s[1..];
        parts
  }

  lemma {:induction false} SplitNoSeparator(a: string, sep: char)
    requires sep !in a
    ensures Split(a, sep) == [a]
    decreases |a|
  {
    if a != [] {
      SplitNoSeparator(a[1..], sep);
      assert [a[0]] + a[1..] == a;
    }
  }

  lemma {:induction false} SplitAtFirstSeparator(a: string, b: string, sep: char)
    requires sep !in a
    ensures Split(a + [sep] + b, sep) == [a] + Split(b, sep)
    decreases |a|
  {
    var s := a + [sep] + b;
    if a == [] {
      assert s[1..] == b;
    } else {
      assert s[1..] == a[1..] + [sep] + b;
      SplitAtFirstSeparator(a[1..], b, sep);
      assert [a[0]] + a[1..] == a;
    }
  }

  /** Splitting the join of separator-free parts gives the parts back. */
  lemma {:induction false} SplitJoin(parts: seq<string>, sep: char)
    requires |parts| >= 1
    requires forall k :: 0 <= k < |parts| ==> sep !in parts[k]
    ensures Split(Join(parts, sep), sep) == parts
    decreases |parts|
  {
    if |parts| == 1 {
      SplitNoSeparator(parts[0], sep);
    } else {
      SplitJoin(parts[1..], sep);
      SplitAtFirstSeparator(parts[0], Join(parts[1..], sep), sep);
      assert [parts[0]] + parts[1..] == parts;
    }
  }

  // -------------------------------------------------------------- FormData

  /** `formData.get(key)` on a form whose named controls are `names` and
      hold the texts `raw`: a control without a `name` is not submitted, so
      reading its key gives `null` (`None`). */
  function FormDataGet(names: set<string>, raw: string -> string, key: string): (v: Option<string>)
    ensures v.Some? <==> key in names
    ensures v.Some? ==> v.value == raw(key)
  {
    if key in names then Some(raw(key)) else None
  }
}

/** The handful of JavaScript string operations the application relies on:
    `trim`, `parseInt(_, 10)`, `Number(_)` on decimal text, `split`/`join`
    on one separator character, `padStart(2, '0')` and integer rendering. */
module Text {
  import opened Wrappers

  /** The characters `String.prototype.trim` removes: ECMAScript WhiteSpace
      (tab, vertical tab, form feed, space, no-break space, byte-order mark
      and the Zs category) and LineTerminator. */
  predicate IsSpace(c: char) {
    || c == '\t' || c == '\n' || c == '\U{000B}' || c == '\U{000C}' || c == '\r'
    || c == ' ' || c == '\U{00A0}' || c == '\U{1680}'
    || ('\U{2000}' <= c <= '\U{200A}')
    || c == '\U{2028}' || c == '\U{2029}' || c == '\U{202F}' || c == '\U{205F}'
    || c == '\U{3000}' || c == '\U{FEFF}'
  }

  /** `s` with its leading white space removed. */
  function TrimStart(s: string): (r: string)
    ensures |r| <= |s| && r == s[|s| - |r|..]
    ensures forall i :: 0 <= i < |s| - |r| ==> IsSpace(s[i])
    ensures r == [] || !IsSpace(r[0])
    decreases |s|
  {
    if |s| > 0 && IsSpace(s[0]) then TrimStart(s[1..]) else s
  }

  /** `s` with its trailing white space removed. */
  function TrimEnd(s: string): (r: string)
    ensures |r| <= |s| && r == s[..|r|]
    ensures forall i :: |r| <= i < |s| ==> IsSpace(s[i])
    ensures r == [] || !IsSpace(r[|r| - 1])
    decreases |s|
  {
    if |s| > 0 && IsSpace(s[|s| - 1]) then TrimEnd(s[..|s| - 1]) else s
  }

  /** `s.trim()`. */
  function Trim(s: string): string {
    TrimEnd(TrimStart(s))
  }

  /** `!s.trim()`: the string is empty once trimmed. */
  predicate IsBlank(s: string) {
    Trim(s) == ""
  }

  /** A string is blank exactly when every character of it is white space. */
  lemma BlankIffAllSpace(s: string)
    ensures IsBlank(s) <==> forall i :: 0 <= i < |s| ==> IsSpace(s[i])
  {
    if forall i :: 0 <= i < |s| ==> IsSpace(s[i]) {
      AllSpaceTrimsToEmpty(s);
    }
  }

  lemma {:induction false} AllSpaceTrimsToEmpty(s: string)
    requires forall i :: 0 <= i < |s| ==> IsSpace(s[i])
    ensures TrimStart(s) == []
    decreases |s|
  {
    if |s| > 0 {
      AllSpaceTrimsToEmpty(s[1..]);
    }
  }

  /** A trimmed text that is not empty starts with a character trimming keeps. */
  lemma TrimmedStartsNonSpace(s: string)
    ensures Trim(s) != [] ==> !IsSpace(Trim(s)[0])
  {
    var u := TrimStart(s);
    if Trim(s) != [] {
      assert u != [] && Trim(s)[0] == u[0];
    }
  }

  /** A text that starts with a character trimming keeps is not blank. */
  lemma NonSpaceStartNotBlank(s: string)
    requires s != [] && !IsSpace(s[0])
    ensures Trim(s) != []
  {
    assert TrimStart(s) == s;
  }

  /** Trimming is idempotent. */
  lemma TrimIdempotent(s: string)
    ensures Trim(Trim(s)) == Trim(s)
  {
    var t := Trim(s);
    if t != [] {
      assert TrimEnd(TrimStart(s)) == t;
      assert !IsSpace(t[|t| - 1]);
      assert TrimStart(t) == t;
    }
  }

  // ---------------------------------------------------------------------------
  // Decimal digits

  predicate IsDigit(c: char) {
    '0' <= c <= '9'
  }

  predicate AllDigits(s: string) {
    forall i :: 0 <= i < |s| ==> IsDigit(s[i])
  }

  function DigitValue(c: char): (d: nat)
    requires IsDigit(c)
    ensures d < 10
  {
    (c as int - '0' as int) as nat
  }

  function DigitChar(d: nat): (c: char)
    requires d < 10
    ensures IsDigit(c) && DigitValue(c) == d
  {
    (d + '0' as int) as char
  }

  /** The value of a string of decimal digits, most significant first. */
  function DigitsValue(s: string): nat
    requires AllDigits(s)
    decreases |s|
  {
    if s == [] then 0 else 10 * DigitsValue(s[..|s| - 1]) + DigitValue(s[|s| - 1])
  }

  /** The decimal rendering of a natural number, without leading zeros. */
  function NatToString(n: nat): (s: string)
    ensures |s| >= 1 && AllDigits(s)
    ensures |s| > 1 ==> s[0] != '0'
    decreases n
  {
    if n < 10 then [DigitChar(n)] else NatToString(n / 10) + [DigitChar(n % 10)]
  }

  /** JavaScript's rendering of an integral number, `${n}`. */
  function IntToString(n: int): string {
    if n < 0 then "-" + NatToString(-n) else NatToString(n)
  }

  /** Reading back a rendered natural number yields the number. */
  lemma {:induction false} NatToStringRoundTrip(n: nat)
    ensures DigitsValue(NatToString(n)) == n
    decreases n
  {
    if n >= 10 {
      var s := NatToString(n);
      var a := NatToString(n / 10);
      assert s == a + [DigitChar(n % 10)];
      assert s[..|s| - 1] == a;
      NatToStringRoundTrip(n / 10);
    }
  }

  /** Numbers below ten render as one digit, and numbers of at least ten as
      two or more. */
  lemma {:induction false} NatToStringLength(n: nat)
    ensures n < 10 <==> |NatToString(n)| == 1
  {
    if n >= 10 {
      assert |NatToString(n)| == |NatToString(n / 10)| + 1;
    }
  }

  // ---------------------------------------------------------------------------
  // parseInt(s, 10) and Number(s)

  /** The longest prefix of `s` made of decimal digits. */
  function DigitPrefix(s: string): (p: string)
    ensures |p| <= |s| && p == s[..|p|]
    ensures AllDigits(p)
    ensures |p| < |s| ==> !IsDigit(s[|p|])
    decreases |s|
  {
    if |s| > 0 && IsDigit(s[0]) then [s[0]] + DigitPrefix(s[1..]) else []
  }

  lemma {:induction false} DigitPrefixOfDigits(a: string, b: string)
    requires AllDigits(a)
    requires b == [] || !IsDigit(b[0])
    ensures DigitPrefix(a + b) == a
    decreases |a|
  {
    if a != [] {
      assert (a + b)[1..] == a[1..] + b;
      DigitPrefixOfDigits(a[1..], b);
      assert [a[0]] + a[1..] == a;
    }
  }

  /** `s` after an optional leading `+` or `-`. */
  function Unsigned(t: string): string {
    if |t| > 0 && (t[0] == '-' || t[0] == '+') then t[1..] else t
  }

  /** `parseInt(s, 10)`: leading white space is skipped, an optional sign is
      read, then as many decimal digits as follow; with no digit the result
      is NaN, here `None`. */
  function ParseInt(s: string): Option<int> {
    var t := TrimStart(s);
    var digits := DigitPrefix(Unsigned(t));
    if digits == [] then None
    else if |t| > 0 && t[0] == '-' then Some(-(DigitsValue(digits) as int))
    else Some(DigitsValue(digits))
  }

  /** `parseInt` reads back every rendered integer, also when non-digit text
      follows it (`parseInt("15 min") == 15`). */
  lemma ParseIntRendered(n: int, rest: string)
    requires rest == [] || !IsDigit(rest[0])
    ensures ParseInt(IntToString(n) + rest).Some?
    ensures ParseInt(IntToString(n) + rest).value == n
  {
    var s := IntToString(n) + rest;
    if n < 0 {
      var digits := NatToString(-n);
      assert IntToString(n) == ['-'] + digits;
      assert s == ['-'] + (digits + rest);
      ParseIntNegative(-n, rest, s);
    } else {
      ParseIntNonNegative(n, rest, s);
    }
  }

  lemma ParseIntNonNegative(m: nat, rest: string, s: string)
    requires rest == [] || !IsDigit(rest[0])
    requires s == NatToString(m) + rest
    ensures ParseInt(s) == Some(m)
  {
    assert s[0] == NatToString(m)[0];
    NoLeadingSpace(s);
    assert Unsigned(s) == s;
    DigitPrefixOfDigits(NatToString(m), rest);
    NatToStringRoundTrip(m);
  }

  lemma ParseIntNegative(m: nat, rest: string, s: string)
    requires rest == [] || !IsDigit(rest[0])
    requires s == ['-'] + (NatToString(m) + rest)
    ensures ParseInt(s) == Some(-(m as int))
  {
    NoLeadingSpace(s);
    assert Unsigned(s) == NatToString(m) + rest;
    DigitPrefixOfDigits(NatToString(m), rest);
    NatToStringRoundTrip(m);
  }

  lemma NoLeadingSpace(s: string)
    requires s == [] || !IsSpace(s[0])
    ensures TrimStart(s) == s
  {
  }

  /** A non-empty run of digits reads back as its value under `parseInt`. */
  lemma ParseIntDigitString(s: string)
    requires s != [] && AllDigits(s)
    ensures ParseInt(s).Some? && ParseInt(s).value == DigitsValue(s)
  {
    ParseIntOfDigitRun(s, DigitsValue(s));
  }

  lemma ParseIntOfDigitRun(s: string, v: nat)
    requires s != [] && AllDigits(s) && v == DigitsValue(s)
    ensures ParseInt(s) == Some(v as int)
  {
    NoLeadingSpace(s);
    assert Unsigned(s) == s;
    DigitPrefixOfDigits(s, "");
    assert s + "" == s;
  }

  /** A non-empty run of digits reads back as its value under `Number`. */
  lemma DecimalNumberDigitString(s: string)
    requires s != [] && AllDigits(s)
    ensures DecimalNumber(s).Some? && DecimalNumber(s).value == DigitsValue(s)
  {
    NoLeadingSpace(s);
    assert TrimEnd(s) == s;
  }

  /** A number below one hundred, padded to two places, is two digits that
      read back as the number. */
  lemma TwoDigits(n: nat)
    requires n < 100
    ensures var s := PadStart2(NatToString(n));
            |s| == 2 && AllDigits(s) && DigitsValue(s) == n
  {
    NatToStringLength(n);
    NatToStringRoundTrip(n);
    var s := PadStart2(NatToString(n));
    if n < 10 {
      assert s == ['0', DigitChar(n)];
      assert s[..1] == ['0'];
    } else {
      NatToStringLength(n / 10);
      assert |NatToString(n)| == |NatToString(n / 10)| + 1;
    }
  }

  /** `parseInt` yields NaN exactly when no digit follows the white space
      and the optional sign. */
  lemma ParseIntNaN(s: string)
    ensures ParseInt(s).None? <==>
              var u := Unsigned(TrimStart(s)); u == [] || !IsDigit(u[0])
  {
    var u := Unsigned(TrimStart(s));
    if u != [] && IsDigit(u[0]) {
      assert DigitPrefix(u) != [];
    }
  }

  /** `Number(s)` restricted to text that is empty or an optionally signed
      run of decimal digits once trimmed. Every other text reads as NaN,
      `None`, here, including exponent, hexadecimal, fractional and
      `Infinity` forms that JavaScript reads as numbers. */
  function DecimalNumber(s: string): (r: Option<int>)
    ensures r.Some? && Trim(s) != "" ==> AllDigits(Unsigned(Trim(s))) && Unsigned(Trim(s)) != ""
  {
    var t := Trim(s);
    var u := Unsigned(t);
    if t == [] then Some(0)
    else if u == [] || !AllDigits(u) then None
    else if t[0] == '-' then Some(-(DigitsValue(u) as int))
    else Some(DigitsValue(u))
  }

  // ---------------------------------------------------------------------------
  // split / join on one separator character

  /** Index of the first occurrence of `c` in `s`. */
  function IndexOf(s: string, c: char): (i: nat)
    requires c in s
    ensures i < |s| && s[i] == c && c !in s[..i]
  {
    if s[0] == c then 0 else 1 + IndexOf(s[1..], c)
  }

  /** `s.split(sep)`: the maximal separator-free pieces between separators. */
  function Split(s: string, sep: char): (parts: seq<string>)
    ensures |parts| >= 1
    ensures forall k :: 0 <= k < |parts| ==> sep !in parts[k]
    decreases |s|
  {
    if sep in s then
      var i := IndexOf(s, sep);
      [s[..i]] + Split(s[i + 1..], sep)
    else
      [s]
  }

  /** `parts.join(sep)`. */
  function Join(parts: seq<string>, sep: char): string {
    if |parts| == 0 then ""
    else if |parts| == 1 then parts[0]
    else parts[0] + [sep] + Join(parts[1..], sep)
  }

  /** Joining the pieces of a split with the same separator restores the text. */
  lemma {:induction false} JoinSplit(s: string, sep: char)
    ensures Join(Split(s, sep), sep) == s
    decreases |s|
  {
    if sep in s {
      var i := IndexOf(s, sep);
      var head, tail := s[..i], s[i + 1..];
      assert s == head + [sep] + tail;
      var rest := Split(tail, sep);
      assert Split(s, sep) == [head] + rest;
      JoinSplit(tail, sep);
      JoinCons(head, rest, sep);
    }
  }

  lemma JoinCons(first: string, rest: seq<string>, sep: char)
    requires |rest| >= 1
    ensures Join([first] + rest, sep) == first + [sep] + Join(rest, sep)
  {
    assert ([first] + rest)[1..] == rest;
  }

  /** Joining with one more piece at the end adds a separator and the piece. */
  lemma {:induction false} JoinSnoc(parts: seq<string>, last: string, sep: char)
    requires |parts| >= 1
    ensures Join(parts + [last], sep) == Join(parts, sep) + [sep] + last
    decreases |parts|
  {
    if |parts| == 1 {
      assert (parts + [last])[1..] == [last];
    } else {
      assert (parts + [last])[1..] == parts[1..] + [last];
      JoinSnoc(parts[1..], last, sep);
    }
  }

  lemma IndexOfAfterFree(a: string, c: char, b: string)
    requires c !in a
    ensures c in a + [c] + b && IndexOf(a + [c] + b, c) == |a|
    decreases |a|
  {
    var s := a + [c] + b;
    assert s[|a|] == c;
    if a != [] {
      assert s[1..] == a[1..] + [c] + b;
      IndexOfAfterFree(a[1..], c, b);
    }
  }

  /** Splitting separator-free pieces joined with the separator gives the
      pieces back. */
  lemma {:induction false} SplitJoin(parts: seq<string>, sep: char)
    requires |parts| >= 1
    requires forall k :: 0 <= k < |parts| ==> sep !in parts[k]
    ensures Split(Join(parts, sep), sep) == parts
    decreases |parts|
  {
    if |parts| > 1 {
      SplitJoin(parts[1..], sep);
      SplitAtFirst(parts[0], sep, Join(parts[1..], sep));
      assert parts == [parts[0]] + parts[1..];
    }
  }

  /** A separator-free head before the first separator is the first piece. */
  lemma SplitAtFirst(a: string, sep: char, rest: string)
    requires sep !in a
    ensures Split(a + [sep] + rest, sep) == [a] + Split(rest, sep)
  {
    var s := a + [sep] + rest;
    IndexOfAfterFree(a, sep, rest);
    assert s[..|a|] == a;
    assert s[|a| + 1..] == rest;
  }

  /** Two separator-free pieces around one separator split back into the two. */
  lemma SplitTwo(a: string, b: string, sep: char)
    requires sep !in a && sep !in b
    ensures Split(a + [sep] + b, sep) == [a, b]
  {
    assert forall k :: 0 <= k < |[a, b]| ==> sep !in [a, b][k];
    SplitJoin([a, b], sep);
    assert Join([a, b], sep) == a + [sep] + Join([b], sep);
  }

  /** The first piece of a split is the text before the first separator, and
      the remaining pieces joined back are the text after it. */
  lemma SplitFirst(s: string, sep: char)
    requires sep in s
    ensures var parts := Split(s, sep);
            && |parts| >= 2
            && parts[0] == s[..IndexOf(s, sep)]
            && Join(parts[1..], sep) == s[IndexOf(s, sep) + 1..]
  {
    var i := IndexOf(s, sep);
    var head, tail := s[..i], s[i + 1..];
    assert s == head + [sep] + tail;
    var parts := Split(s, sep);
    assert parts == [head] + Split(tail, sep);
    assert parts[0] == head && parts[1..] == Split(tail, sep);
    JoinSplit(tail, sep);
  }

  // ---------------------------------------------------------------------------
  // prefixes, suffixes and truthiness

  predicate StartsWith(s: string, p: string) {
    |p| <= |s| && s[..|p|] == p
  }

  /** `p` occurs in `s` at position `i`. */
  predicate OccursAt(s: string, i: nat, p: string) {
    i + |p| <= |s| && s[i..i + |p|] == p
  }

  predicate EndsWith(s: string, p: string) {
    |p| <= |s| && s[|s| - |p|..] == p
  }

  lemma StartsWithConcat(a: string, b: string)
    ensures StartsWith(a + b, a)
  {
    assert (a + b)[..|a|] == a;
  }

  lemma EndsWithConcat(a: string, b: string)
    ensures EndsWith(a + b, b)
  {
    assert (a + b)[|a|..] == b;
  }

  /** A suffix stays a suffix, with whatever follows appended to both. */
  lemma EndsWithExtend(a: string, s: string, n: string)
    requires EndsWith(a, s)
    ensures EndsWith(a + n, s + n)
  {
    assert (a + n)[|a + n| - |s + n|..] == a[|a| - |s|..] + n;
  }

  /** An occurrence stays where it is when text is appended. */
  lemma OccursAtExtend(a: string, i: nat, p: string, n: string)
    requires OccursAt(a, i, p)
    ensures OccursAt(a + n, i, p)
  {
    assert (a + n)[i..i + |p|] == a[i..i + |p|];
  }

  lemma StartsWithTrans(s: string, p: string, q: string)
    requires StartsWith(s, p) && StartsWith(p, q)
    ensures StartsWith(s, q)
  {
    assert s[..|q|] == s[..|p|][..|q|];
  }

  lemma EndsWithTrans(s: string, p: string, q: string)
    requires EndsWith(s, p) && EndsWith(p, q)
    ensures EndsWith(s, q)
  {
    assert s[|s| - |q|..] == s[|s| - |p|..][|p| - |q|..];
  }

  /** Two prefixes that differ at a position both cover cannot both start `s`. */
  lemma PrefixesDiffer(s: string, p: string, q: string, i: nat)
    requires i < |p| && i < |q| && p[i] != q[i]
    requires StartsWith(s, p)
    ensures !StartsWith(s, q)
  {
    assert s[i] == s[..|p|][i];
    assert i < |q| <= |s| ==> s[..|q|][i] == s[i];
  }

  /** The truthiness of an optional string: present and not empty. */
  predicate Truthy(s: Option<string>) {
    s.Some? && s.value != ""
  }

  /** `s || fallback` on an optional string. */
  function OrElse(s: Option<string>, fallback: string): (r: string)
    ensures Truthy(s) ==> r == s.value
    ensures !Truthy(s) ==> r == fallback
  {
    if Truthy(s) then s.value else fallback
  }

  // ---------------------------------------------------------------------------
  // padding

  /** `s.padStart(2, '0')`. */
  function PadStart2(s: string): (r: string)
    ensures |r| == if |s| >= 2 then |s| else 2
    ensures r[|r| - |s|..] == s
    ensures forall i :: 0 <= i < |r| - |s| ==> r[i] == '0'
  {
    if |s| >= 2 then s else if |s| == 1 then "0" + s else "00"
  }
}

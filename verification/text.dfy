/** The string primitives the components rely on: `toLowerCase`, `trim`,
    `includes`, `split('-')`, `join`, rendering a number with `${n}`,
    reading it back, and `parseInt`. */
module Text {
  import opened Basics

  // ---------------------------------------------------------------------
  // Case

  /** `toLowerCase` on one character: ASCII and Latin-1 capitals. */
  function LowerChar(c: char): char
  {
    if 'A' <= c <= 'Z' || ('\U{00C0}' <= c <= '\U{00DE}' && c != '\U{00D7}') then
      (c as int + 32) as char
    else c
  }

  /** `s.toLowerCase()`. */
  function Lower(s: string): (r: string)
    ensures |r| == |s|
    ensures forall i :: 0 <= i < |s| ==> r[i] == LowerChar(s[i])
  {
    seq(|s|, i requires 0 <= i < |s| => LowerChar(s[i]))
  }

  /** Lower-casing is idempotent, so comparing lowered strings is stable. */
  lemma LowerIdempotent(s: string)
    ensures Lower(Lower(s)) == Lower(s)
  {
  }

  /** Lower-casing keeps every whitespace character (so `lower(trim(x))` and
      `trim(lower(x))` agree). */
  lemma LowerKeepsWhitespace(c: char)
    requires IsWhitespace(c)
    ensures LowerChar(c) == c
  {
  }

  // ---------------------------------------------------------------------
  // Whitespace

  /** The whitespace `String.prototype.trim` removes (the common subset). */
  predicate IsWhitespace(c: char)
  {
    c == ' ' || c == '\t' || c == '\n' || c == '\r' || c == '\U{000B}' || c == '\U{000C}'
    || c == '\U{00A0}' || c == '\U{FEFF}'
  }

  /** `trimStart`: the suffix that starts at the first non-blank character. */
  function TrimStart(s: string): (r: string)
    ensures |r| <= |s| && r == s[|s| - |r|..]
    ensures forall k :: 0 <= k < |s| - |r| ==> IsWhitespace(s[k])
    ensures |r| == 0 || !IsWhitespace(r[0])
  {
    if |s| > 0 && IsWhitespace(s[0]) then TrimStart(s[1..]) else s
  }

  /** `trimEnd`: the prefix that ends at the last non-blank character. */
  function TrimEnd(s: string): (r: string)
    ensures |r| <= |s| && r == s[..|r|]
    ensures forall k :: |r| <= k < |s| ==> IsWhitespace(s[k])
    ensures |r| == 0 || !IsWhitespace(r[|r| - 1])
  {
    if |s| > 0 && IsWhitespace(s[|s| - 1]) then TrimEnd(s[..|s| - 1]) else s
  }

  /** `s.trim()`. */
  function Trim(s: string): (r: string)
    ensures |r| <= |s|
    ensures |r| == 0 || (!IsWhitespace(r[0]) && !IsWhitespace(r[|r| - 1]))
    ensures |r| == 0 <==> forall k :: 0 <= k < |s| ==> IsWhitespace(s[k])
  {
    var t := TrimStart(s);
    var r := TrimEnd(t);
    r
  }

  /** `trimStart` drops exactly a leading run of blanks. */
  lemma {:induction false} TrimStartSkips(pre: string, rest: string)
    requires forall k :: 0 <= k < |pre| ==> IsWhitespace(pre[k])
    requires |rest| == 0 || !IsWhitespace(rest[0])
    ensures TrimStart(pre + rest) == rest
  {
    if |pre| == 0 {
      assert pre + rest == rest;
    } else {
      assert (pre + rest)[1..] == pre[1..] + rest;
      TrimStartSkips(pre[1..], rest);
    }
  }

  /** `trimEnd` drops exactly a trailing run of blanks. */
  lemma {:induction false} TrimEndSkips(rest: string, post: string)
    requires forall k :: 0 <= k < |post| ==> IsWhitespace(post[k])
    requires |rest| == 0 || !IsWhitespace(rest[|rest| - 1])
    ensures TrimEnd(rest + post) == rest
  {
    if |post| == 0 {
      assert rest + post == rest;
    } else {
      var s := rest + post;
      assert s[..|s| - 1] == rest + post[..|post| - 1];
      TrimEndSkips(rest, post[..|post| - 1]);
    }
  }

  /** A string without outer blanks, wrapped in blanks, trims back to itself. */
  lemma TrimUnwraps(pre: string, a: string, post: string)
    requires forall k :: 0 <= k < |pre| ==> IsWhitespace(pre[k])
    requires forall k :: 0 <= k < |post| ==> IsWhitespace(post[k])
    requires |a| == 0 || (!IsWhitespace(a[0]) && !IsWhitespace(a[|a| - 1]))
    ensures Trim(pre + a + post) == a
  {
    if |a| == 0 {
      var w := pre + post;
      assert pre + a + post == w + "";
      assert forall k :: 0 <= k < |w| ==> IsWhitespace(w[k]) by {
        forall k | 0 <= k < |w| ensures IsWhitespace(w[k]) {
          if k < |pre| { assert w[k] == pre[k]; } else { assert w[k] == post[k - |pre|]; }
        }
      }
      TrimStartSkips(w, "");
    } else {
      assert pre + a + post == pre + (a + post);
      TrimStartSkips(pre, a + post);
      TrimEndSkips(a, post);
    }
  }

  /** Trimming is idempotent. */
  lemma TrimIdempotent(s: string)
    ensures Trim(Trim(s)) == Trim(s)
  {
    TrimUnwraps([], Trim(s), []);
    assert [] + Trim(s) + [] == Trim(s);
  }

  // ---------------------------------------------------------------------
  // Substrings

  /** `s.includes(q)`. */
  predicate Contains(s: string, q: string)
  {
    exists i :: 0 <= i <= |s| && q <= s[i..]
  }

  /** Every string contains the empty string and itself. */
  lemma ContainsTrivial(s: string)
    ensures Contains(s, "")
    ensures Contains(s, s)
  {
    assert "" <= s[0..];
    assert s <= s[0..];
  }

  /** Case-insensitive containment, `s.toLowerCase().includes(q.toLowerCase())`. */
  predicate ContainsIgnoringCase(s: string, q: string)
  {
    Contains(Lower(s), Lower(q))
  }

  // ---------------------------------------------------------------------
  // Splitting and joining

  /** Index of the first occurrence of `c` in `s`. */
  function IndexOf(s: string, c: char): (i: nat)
    requires c in s
    ensures i < |s| && s[i] == c && c !in s[..i]
  {
    if s[0] == c then 0
    else
      assert c in s[1..] by { var k :| 0 <= k < |s| && s[k] == c; assert s[1..][k - 1] == c; }
      var j := IndexOf(s[1..], c);
      assert s[..j + 1] == [s[0]] + s[1..][..j];
      j + 1
  }

  /** `s.split(sep)` for a one-character separator; never empty. */
  function Split(s: string, sep: char): (parts: seq<string>)
    ensures |parts| >= 1
    ensures forall k :: 0 <= k < |parts| ==> sep !in parts[k]
    decreases |s|
  {
    if sep !in s then [s]
    else
      var i := IndexOf(s, sep);
      [s[..i]] + Split(s[i + 1..], sep)
  }

  /** Splitting a piece free of the separator, then the separator, then the rest. */
  lemma SplitCons(a: string, sep: char, rest: string)
    requires sep !in a
    ensures Split(a + [sep] + rest, sep) == [a] + Split(rest, sep)
  {
    var s := a + [sep] + rest;
    assert s[|a|] == sep;
    var i := IndexOf(s, sep);
    assert i == |a|;
    assert s[..i] == a;
    assert s[i + 1..] == rest;
  }

  /** `parts.join(sep)`. */
  function Join(parts: seq<string>, sep: string): (r: string)
    ensures |parts| == 0 ==> r == ""
    ensures |parts| == 1 ==> r == parts[0]
  {
    if |parts| == 0 then ""
    else if |parts| == 1 then parts[0]
    else parts[0] + sep + Join(parts[1..], sep)
  }

  /** Splitting a joined list of separator-free pieces gives the pieces back. */
  lemma {:induction false} SplitJoin(parts: seq<string>, sep: char)
    requires |parts| >= 1
    requires forall k :: 0 <= k < |parts| ==> sep !in parts[k]
    ensures Split(Join(parts, [sep]), sep) == parts
  {
    if |parts| == 1 {
    } else {
      SplitJoin(parts[1..], sep);
      SplitCons(parts[0], sep, Join(parts[1..], [sep]));
      assert parts == [parts[0]] + parts[1..];
    }
  }

  /** The length of a join: every piece plus one separator between neighbours. */
  lemma {:induction false} JoinLength(parts: seq<string>, sep: string)
    requires |parts| >= 1
    ensures |Join(parts, sep)| == SumLengths(parts) + (|parts| - 1) * |sep|
  {
    if |parts| > 1 {
      JoinLength(parts[1..], sep);
    }
  }

  /** Total length of a list of strings. */
  function SumLengths(parts: seq<string>): nat
  {
    if |parts| == 0 then 0 else |parts[0]| + SumLengths(parts[1..])
  }

  // ---------------------------------------------------------------------
  // Numbers as text

  predicate IsDigitChar(c: char)
  {
    '0' <= c <= '9'
  }

  predicate IsDigits(s: string)
  {
    forall k :: 0 <= k < |s| ==> IsDigitChar(s[k])
  }

  function DigitChar(d: nat): (c: char)
    requires d < 10
    ensures IsDigitChar(c)
  {
    ('0' as int + d) as char
  }

  function DigitValue(c: char): (d: nat)
    requires IsDigitChar(c)
    ensures d < 10
  {
    c as int - '0' as int
  }

  /** `${n}` for a non-negative integer: its decimal digits, no leading zero. */
  function Decimal(n: nat): (r: string)
    ensures |r| >= 1 && IsDigits(r)
    ensures |r| > 1 ==> r[0] != '0'
    decreases n
  {
    if n < 10 then [DigitChar(n)] else Decimal(n / 10) + [DigitChar(n % 10)]
  }

  /** The value of a run of decimal digits (leading zeros allowed). */
  function DigitsValue(s: string): nat
    requires IsDigits(s)
  {
    if |s| == 0 then 0 else DigitsValue(s[..|s| - 1]) * 10 + DigitValue(s[|s| - 1])
  }

  /** How the database reads an id that arrives as text: a non-empty run of
      decimal digits, or an input error. */
  function ParseNat(s: string): (r: Option<nat>)
    ensures r.Some? <==> |s| > 0 && IsDigits(s)
  {
    if |s| > 0 && IsDigits(s) then Some(DigitsValue(s)) else None
  }

  /** Rendering a number and reading it back gives the number. */
  lemma {:induction false} DecimalRoundTrip(n: nat)
    ensures ParseNat(Decimal(n)) == Some(n)
    decreases n
  {
    if n >= 10 {
      DecimalRoundTrip(n / 10);
      var d := Decimal(n / 10);
      var r := d + [DigitChar(n % 10)];
      assert r[..|r| - 1] == d;
      assert DigitValue(r[|r| - 1]) == n % 10;
      assert DigitsValue(d) == n / 10;
      assert DigitsValue(r) == DigitsValue(d) * 10 + n % 10;
      assert ParseNat(r) == Some(DigitsValue(r));
    } else {
      var r := Decimal(n);
      assert r == [DigitChar(n)];
      assert r[..0] == [];
      assert DigitValue(r[0]) == n;
      assert DigitsValue(r) == DigitsValue(r[..0]) * 10 + DigitValue(r[0]);
      assert ParseNat(r) == Some(DigitsValue(r));
    }
  }

  /** A rendered number never contains the separator `'-'`. */
  lemma DecimalHasNoDash(n: nat)
    ensures '-' !in Decimal(n)
  {
    var r := Decimal(n);
    forall k | 0 <= k < |r| ensures r[k] != '-' {
      assert IsDigitChar(r[k]);
    }
  }

  /** Length of the longest prefix of decimal digits. */
  function DigitPrefixLength(s: string): (n: nat)
    ensures n <= |s| && IsDigits(s[..n])
    ensures n < |s| ==> !IsDigitChar(s[n])
  {
    if |s| > 0 && IsDigitChar(s[0]) then
      var m := DigitPrefixLength(s[1..]);
      assert s[..m + 1] == [s[0]] + s[1..][..m];
      m + 1
    else 0
  }

  /** `parseInt(s, 10)`: leading blanks, an optional sign, then the longest
      run of digits; no digits at all is `NaN` (`None`). */
  function ParseIntJs(s: string): (r: Option<int>)
    ensures r.Some? ==> exists k :: 0 <= k < |s| && IsDigitChar(s[k])
  {
    var t := TrimStart(s);
    var neg := |t| > 0 && t[0] == '-';
    var body := if |t| > 0 && (t[0] == '-' || t[0] == '+') then t[1..] else t;
    var n := DigitPrefixLength(body);
    if n == 0 then None
    else
      assert IsDigitChar(body[..n][0]);
      assert IsDigitChar(s[|s| - |body|]);
      var v: int := DigitsValue(body[..n]);
      Some(if neg then -v else v)
  }

  /** `parseInt` reads back a rendered number. */
  lemma ParseIntJsDecimal(n: nat)
    ensures ParseIntJs(Decimal(n)) == Some(n)
  {
    var r := Decimal(n);
    assert TrimStart(r) == r by {
      assert !IsWhitespace(r[0]) by { assert IsDigitChar(r[0]); }
    }
    assert r[0] != '-' && r[0] != '+' by { assert IsDigitChar(r[0]); }
    DigitsFullPrefix(r);
    assert r[..|r|] == r;
    DecimalRoundTrip(n);
  }

  /** An all-digit string is its own longest digit prefix. */
  lemma {:induction false} DigitsFullPrefix(s: string)
    requires IsDigits(s)
    ensures DigitPrefixLength(s) == |s|
  {
    if |s| > 0 {
      DigitsFullPrefix(s[1..]);
    }
  }

  /** A JavaScript template interpolation `${x}` of a possibly missing string. */
  function Interp(o: Option<string>): string
  {
    GetOr(o, "undefined")
  }

  /** `o?.trim()` used as a condition: the trimmed value when it is not blank. */
  function NonBlank(o: Option<string>): (r: Option<string>)
    ensures r.Some? ==> r.value != "" && Trim(r.value) == r.value
    ensures r.None? <==> (o.None? || Trim(o.value) == "")
    ensures r.Some? ==> r.value == Trim(o.value)
  {
    if o.Some? && Trim(o.value) != "" then
      TrimIdempotent(o.value);
      Some(Trim(o.value))
    else None
  }
}

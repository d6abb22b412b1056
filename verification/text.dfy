/**
 * The string operations of Rust's standard library that the model relies on:
 * decimal rendering (`to_string` on an unsigned integer), `str::parse` for
 * unsigned integers, `char::is_whitespace`, `str::trim`, `str::split` over a
 * set of separator characters and `[String]::join`.
 */
module Text {
  import opened Wrappers

  predicate IsDigit(c: char) {
    '0' <= c <= '9'
  }

  predicate AllDigits(s: string) {
    forall i :: 0 <= i < |s| ==> IsDigit(s[i])
  }

  function DigitChar(d: nat): (c: char)
    requires d < 10
    ensures IsDigit(c) && c as int - '0' as int == d
  {
    (d + '0' as int) as char
  }

  function DigitValue(c: char): (d: nat)
    requires IsDigit(c)
    ensures d < 10 && DigitChar(d) == c
  {
    c as int - '0' as int
  }

  /** `n.to_string()`: most significant digit first, no leading zero. */
  function Decimal(n: nat): (s: string)
    ensures |s| >= 1 && AllDigits(s)
    ensures s[0] == '0' ==> n == 0
  {
    if n < 10 then [DigitChar(n)] else Decimal(n / 10) + [DigitChar(n % 10)]
  }

  /** The number a string of decimal digits denotes (leading zeros allowed). */
  function DigitsValue(s: string): nat
    requires AllDigits(s)
  {
    if s == [] then 0 else DigitsValue(s[..|s| - 1]) * 10 + DigitValue(s[|s| - 1])
  }

  lemma {:induction false} DigitsValueOfDecimal(n: nat)
    ensures DigitsValue(Decimal(n)) == n
  {
    if n >= 10 {
      var s := Decimal(n);
      assert s[..|s| - 1] == Decimal(n / 10);
      DigitsValueOfDecimal(n / 10);
    }
  }

  /** Two numbers have the same decimal rendering only if they are equal. */
  lemma DecimalInjective(m: nat, n: nat)
    ensures Decimal(m) == Decimal(n) <==> m == n
  {
    if Decimal(m) == Decimal(n) {
      DigitsValueOfDecimal(m);
      DigitsValueOfDecimal(n);
    }
  }

  /**
   * `s.parse::<uN>()` where `max` is the largest value of the type: an
   * optional leading `+`, then at least one ASCII digit and nothing else, and
   * a value that fits.
   */
  function ParseUnsigned(s: string, max: nat): (r: Option<nat>)
    ensures r.Some? ==> r.value <= max
    ensures r.Some? ==> |s| > 0 && (IsDigit(s[0]) || s[0] == '+')
  {
    var digits := if |s| > 0 && s[0] == '+' then s[1..] else s;
    if |digits| == 0 || !AllDigits(digits) then None
    else if DigitsValue(digits) > max then None
    else Some(DigitsValue(digits))
  }

  /** Parsing gives back any number rendered in decimal, as long as it fits. */
  lemma ParseDecimal(n: nat, max: nat)
    ensures ParseUnsigned(Decimal(n), max) == (if n <= max then Some(n) else None)
  {
    DigitsValueOfDecimal(n);
  }

  /** `char::is_whitespace`: the Unicode White_Space property. */
  predicate IsWhitespace(c: char) {
    ('\t' <= c <= '\r') || c == ' ' || c == '\U{0085}' || c == '\U{00A0}' || c == '\U{1680}'
    || ('\U{2000}' <= c <= '\U{200A}') || c == '\U{2028}' || c == '\U{2029}'
    || c == '\U{202F}' || c == '\U{205F}' || c == '\U{3000}'
  }

  predicate AllWhitespace(s: string) {
    forall i :: 0 <= i < |s| ==> IsWhitespace(s[i])
  }

  function TrimStart(s: string): (r: string)
    ensures |r| <= |s| && r == s[|s| - |r|..]
    ensures |r| > 0 ==> !IsWhitespace(r[0])
    ensures AllWhitespace(s[..|s| - |r|])
  {
    if |s| > 0 && IsWhitespace(s[0]) then TrimStart(s[1..]) else s
  }

  function TrimEnd(s: string): (r: string)
    ensures |r| <= |s| && r == s[..|r|]
    ensures |r| > 0 ==> !IsWhitespace(r[|r| - 1])
    ensures AllWhitespace(s[|r|..])
  {
    if |s| > 0 && IsWhitespace(s[|s| - 1]) then TrimEnd(s[..|s| - 1]) else s
  }

  /** `str::trim`: drop leading and trailing whitespace. */
  function Trim(s: string): (r: string)
    ensures |r| > 0 ==> !IsWhitespace(r[0]) && !IsWhitespace(r[|r| - 1])
  {
    TrimEnd(TrimStart(s))
  }

  /** Trimming removes exactly the whitespace framing a word that starts and ends with non-whitespace. */
  lemma {:induction false} TrimFramed(pre: string, word: string, post: string)
    requires AllWhitespace(pre) && AllWhitespace(post)
    requires |word| > 0 && !IsWhitespace(word[0]) && !IsWhitespace(word[|word| - 1])
    ensures Trim(pre + word + post) == word
  {
    assert pre + word + post == pre + (word + post);
    TrimStartFramed(pre, word + post);
    TrimEndFramed(word, post);
  }

  lemma {:induction false} TrimStartFramed(pre: string, rest: string)
    requires AllWhitespace(pre)
    requires |rest| > 0 && !IsWhitespace(rest[0])
    ensures TrimStart(pre + rest) == rest
    decreases |pre|
  {
    if |pre| == 0 {
      assert pre + rest == rest;
    } else {
      assert (pre + rest)[1..] == pre[1..] + rest;
      TrimStartFramed(pre[1..], rest);
    }
  }

  lemma {:induction false} TrimEndFramed(word: string, post: string)
    requires AllWhitespace(post)
    requires |word| > 0 && !IsWhitespace(word[|word| - 1])
    ensures TrimEnd(word + post) == word
    decreases |post|
  {
    if |post| == 0 {
      assert word + post == word;
    } else {
      assert (word + post)[..|word + post| - 1] == word + post[..|post| - 1];
      TrimEndFramed(word, post[..|post| - 1]);
    }
  }

  predicate NoneOf(s: string, seps: set<char>) {
    forall i :: 0 <= i < |s| ==> s[i] !in seps
  }

  function CountOf(s: string, seps: set<char>): nat {
    if s == [] then 0 else (if s[0] in seps then 1 else 0) + CountOf(s[1..], seps)
  }

  /**
   * `s.split(&seps[..])`: the pieces between separator characters, in order,
   * including empty ones; there is always one piece more than separators.
   */
  function Split(s: string, seps: set<char>): (pieces: seq<string>)
    ensures |pieces| == CountOf(s, seps) + 1
    ensures forall k :: 0 <= k < |pieces| ==> NoneOf(pieces[k], seps)
  {
    if s == [] then [[]]
    else
      var rest := Split(s[1..], seps);
      if s[0] in seps then [[]] + rest else [[s[0]] + rest[0]] + rest[1..]
  }

  /** `parts.join(sep)`. */
  function Join(parts: seq<string>, sep: string): string {
    if |parts| == 0 then ""
    else if |parts| == 1 then parts[0]
    else parts[0] + sep + Join(parts[1..], sep)
  }

  lemma {:induction false} SplitWithoutSeparator(x: string, seps: set<char>)
    requires NoneOf(x, seps)
    ensures Split(x, seps) == [x]
    decreases |x|
  {
    if x != [] {
      SplitWithoutSeparator(x[1..], seps);
      assert [x[0]] + x[1..] == x;
    }
  }

  lemma {:induction false} SplitAtSeparator(x: string, c: char, y: string, seps: set<char>)
    requires NoneOf(x, seps) && c in seps
    ensures Split(x + [c] + y, seps) == [x] + Split(y, seps)
    decreases |x|
  {
    var s := x + [c] + y;
    if x == [] {
      assert s[1..] == y;
    } else {
      assert s[1..] == x[1..] + [c] + y;
      SplitAtSeparator(x[1..], c, y, seps);
      assert [x[0]] + x[1..] == x;
    }
  }

  /** The piece `k` of splitting `lead + Join(parts, pre + [c] + post)` on `seps`. */
  function FramedPiece(parts: seq<string>, k: nat, lead: string, pre: string, post: string): string
    requires k < |parts|
  {
    (if k == 0 then lead else post) + parts[k] + (if k + 1 < |parts| then pre else "")
  }

  /**
   * Splitting a joined string gives back the parts, each one still framed by
   * the padding around the separator character.
   */
  lemma {:induction false} SplitJoin(parts: seq<string>, lead: string, pre: string, c: char, post: string, seps: set<char>)
    requires |parts| > 0 && c in seps
    requires NoneOf(lead, seps) && NoneOf(pre, seps) && NoneOf(post, seps)
    requires forall k :: 0 <= k < |parts| ==> NoneOf(parts[k], seps)
    ensures |Split(lead + Join(parts, pre + [c] + post), seps)| == |parts|
    ensures forall k :: 0 <= k < |parts| ==>
      Split(lead + Join(parts, pre + [c] + post), seps)[k] == FramedPiece(parts, k, lead, pre, post)
    decreases |parts|
  {
    var sep := pre + [c] + post;
    if |parts| == 1 {
      assert NoneOf(lead + parts[0], seps);
      SplitWithoutSeparator(lead + parts[0], seps);
    } else {
      var tail := Join(parts[1..], sep);
      var head := lead + parts[0] + pre;
      assert lead + Join(parts, sep) == head + [c] + (post + tail);
      assert NoneOf(head, seps);
      SplitAtSeparator(head, c, post + tail, seps);
      SplitJoin(parts[1..], post, pre, c, post, seps);
      forall k | 1 <= k < |parts|
        ensures FramedPiece(parts[1..], k - 1, post, pre, post) == FramedPiece(parts, k, lead, pre, post)
      {
      }
    }
  }
}

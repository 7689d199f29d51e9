/** The few JavaScript string primitives the lookup tool relies on:
    `String.prototype.trim`, `endsWith`, `length` (in UTF-16 code units)
    and the decimal rendering of a counter inside a template literal.
    A Dafny `char` is a Unicode scalar value. */
module JsText {

  /** ECMAScript WhiteSpace and LineTerminator code points: exactly the
      characters `trim` removes. */
  predicate IsJsWhitespace(c: char) {
    || c == '\t' || c == '\n' || c == '\U{B}' || c == '\U{C}' || c == '\r'
    || c == ' ' || c == '\U{A0}' || c == '\U{1680}'
    || ('\U{2000}' <= c <= '\U{200A}')
    || c == '\U{2028}' || c == '\U{2029}' || c == '\U{202F}' || c == '\U{205F}'
    || c == '\U{3000}' || c == '\U{FEFF}'
  }

  predicate AllWhitespace(s: string) {
    forall k :: 0 <= k < |s| ==> IsJsWhitespace(s[k])
  }

  /** Number of leading whitespace characters of `s`. */
  function LeadingWhitespace(s: string): (k: nat)
    ensures k <= |s|
  {
    if |s| == 0 || !IsJsWhitespace(s[0]) then 0
    else 1 + LeadingWhitespace(s[1..])
  }

  /** `LeadingWhitespace` counts whitespace up to the first other character. */
  lemma {:induction false} LeadingWhitespaceSpec(s: string)
    ensures forall j :: 0 <= j < LeadingWhitespace(s) ==> IsJsWhitespace(s[j])
    ensures LeadingWhitespace(s) < |s| ==> !IsJsWhitespace(s[LeadingWhitespace(s)])
  {
    if |s| > 0 && IsJsWhitespace(s[0]) {
      LeadingWhitespaceSpec(s[1..]);
    }
  }

  /** Length of `s` once its trailing whitespace is cut off. */
  function TrailingCut(s: string): (k: nat)
    ensures k <= |s|
  {
    if |s| == 0 || !IsJsWhitespace(s[|s| - 1]) then |s|
    else TrailingCut(s[..|s| - 1])
  }

  /** `TrailingCut` stops right after the last non-whitespace character. */
  lemma {:induction false} TrailingCutSpec(s: string)
    ensures forall j :: TrailingCut(s) <= j < |s| ==> IsJsWhitespace(s[j])
    ensures TrailingCut(s) > 0 ==> !IsJsWhitespace(s[TrailingCut(s) - 1])
  {
    if |s| > 0 && IsJsWhitespace(s[|s| - 1]) {
      TrailingCutSpec(s[..|s| - 1]);
    }
  }

  /** `s.trim()`. */
  function Trim(s: string): (r: string)
    ensures |r| <= |s|
  {
    var rest := s[LeadingWhitespace(s)..];
    rest[..TrailingCut(rest)]
  }

  /** `trim` removes whitespace, and only whitespace, from both ends: its
      result is empty exactly when the input is all whitespace, otherwise it
      neither starts nor ends with whitespace, and it sits inside the input
      with whitespace on either side. */
  lemma TrimSpec(s: string)
    ensures Trim(s) == [] <==> AllWhitespace(s)
    ensures Trim(s) != [] ==> !IsJsWhitespace(Trim(s)[0]) && !IsJsWhitespace(Trim(s)[|Trim(s)| - 1])
    ensures exists a :: TrimmedAt(s, Trim(s), a)
  {
    var rest := s[LeadingWhitespace(s)..];
    TrimCutIsTrimmed(s, rest, TrailingCut(rest));
  }

  lemma TrimCutIsTrimmed(s: string, rest: string, b: nat)
    requires rest == s[LeadingWhitespace(s)..]
    requires b == TrailingCut(rest)
    ensures rest[..b] == [] <==> AllWhitespace(s)
    ensures rest[..b] != [] ==> !IsJsWhitespace(rest[0]) && !IsJsWhitespace(rest[b - 1])
    ensures TrimmedAt(s, rest[..b], LeadingWhitespace(s))
  {
    var a := LeadingWhitespace(s);
    var r := rest[..b];
    LeadingWhitespaceSpec(s);
    TrailingCutSpec(rest);
    assert forall j :: a <= j < |s| ==> s[j] == rest[j - a];
    if a < |s| {
      assert rest[0] == s[a];
      assert b > 0;
    }
  }

  /** `r` sits at offset `a` of `s` with only whitespace on either side. */
  predicate TrimmedAt(s: string, r: string, a: int) {
    && 0 <= a <= |s|
    && r <= s[a..]
    && (forall j :: 0 <= j < a ==> IsJsWhitespace(s[j]))
    && (forall j :: a + |r| <= j < |s| ==> IsJsWhitespace(s[j]))
  }

  /** A string with no whitespace at either end is its own trim. */
  lemma TrimKeeps(s: string)
    requires s != [] ==> !IsJsWhitespace(s[0]) && !IsJsWhitespace(s[|s| - 1])
    ensures Trim(s) == s
  {
    assert LeadingWhitespace(s) == 0;
    assert s[0..] == s;
    assert TrailingCut(s) == |s|;
  }

  /** `trim` is idempotent. */
  lemma TrimIdempotent(s: string)
    ensures Trim(Trim(s)) == Trim(s)
  {
    TrimSpec(s);
    TrimKeeps(Trim(s));
  }

  /** `s.endsWith(suffix)`: case-sensitive comparison of the last characters. */
  predicate EndsWith(s: string, suffix: string) {
    |suffix| <= |s| && s[|s| - |suffix|..] == suffix
  }

  /** `s.endsWith(suffix)` holds exactly when `s` is some string followed by `suffix`. */
  lemma EndsWithIffConcat(s: string, suffix: string)
    ensures EndsWith(s, suffix) <==> exists p: string :: s == p + suffix
  {
    if EndsWith(s, suffix) {
      var p := s[..|s| - |suffix|];
      assert s == p + suffix;
    }
    if exists p: string :: s == p + suffix {
      var p: string :| s == p + suffix;
      assert s[|s| - |suffix|..] == suffix;
    }
  }

  /** Code points outside the Basic Multilingual Plane take a surrogate pair. */
  function Utf16Units(c: char): nat {
    if c as int > 0xFFFF then 2 else 1
  }

  /** JavaScript's `s.length`: the number of UTF-16 code units. */
  function Utf16Length(s: string): (n: nat)
    ensures |s| <= n <= 2 * |s|
    ensures (forall k :: 0 <= k < |s| ==> s[k] as int <= 0xFFFF) ==> n == |s|
  {
    if s == [] then 0 else Utf16Units(s[0]) + Utf16Length(s[1..])
  }

  /** JavaScript `length` adds up over concatenation. */
  lemma {:induction false} Utf16LengthAppend(a: string, b: string)
    ensures Utf16Length(a + b) == Utf16Length(a) + Utf16Length(b)
  {
    if a == [] {
      assert a + b == b;
    } else {
      assert (a + b)[1..] == a[1..] + b;
      Utf16LengthAppend(a[1..], b);
    }
  }

  function DigitChar(d: nat): (c: char)
    requires d < 10
    ensures '0' <= c <= '9' && (c as int) - ('0' as int) == d
  {
    (d + '0' as int) as char
  }

  /** Decimal text of a counter, as a template literal `${n}` prints it. */
  function Show(n: nat): (s: string)
    ensures s != []
    ensures forall k :: 0 <= k < |s| ==> '0' <= s[k] <= '9'
    ensures n > 0 ==> s[0] != '0'
  {
    if n < 10 then [DigitChar(n)] else Show(n / 10) + [DigitChar(n % 10)]
  }

  /** Value of a string of decimal digits. */
  function ParseDigits(s: string): (n: nat)
    requires forall k :: 0 <= k < |s| ==> '0' <= s[k] <= '9'
  {
    if s == [] then 0
    else 10 * ParseDigits(s[..|s| - 1]) + ((s[|s| - 1] as int) - ('0' as int))
  }

  /** The decimal text of a counter reads back as that counter. */
  lemma {:induction false} ShowParses(n: nat)
    ensures ParseDigits(Show(n)) == n
  {
    if n >= 10 {
      var s := Show(n);
      assert s[..|s| - 1] == Show(n / 10);
      ShowParses(n / 10);
    }
  }

  /** Different counters print differently. */
  lemma ShowInjective(m: nat, n: nat)
    requires Show(m) == Show(n)
    ensures m == n
  {
    ShowParses(m);
    ShowParses(n);
  }
}

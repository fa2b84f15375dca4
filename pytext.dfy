/**
 * The few Python `str` operations the pipeline relies on, with the meaning
 * CPython gives them: `isspace`, `strip()` with no argument, `rfind` with a
 * start and an end bound, and a slice whose end may lie past the string.
 */
module PyText {

  /**
   * CPython's `str.isspace` for one character, which is also what `strip()`
   * removes: tab to carriage return, the four separators U+001C to U+001F,
   * space, U+0085, no-break space, U+1680, U+2000 to U+200A, the line and
   * paragraph separators, U+202F, U+205F and U+3000.
   */
  predicate IsSpace(c: char)
  {
    c == ' ' || '\t' <= c <= '\r' || '\U{1C}' <= c <= '\U{1F}' || c == '\U{85}' || c == '\U{A0}' ||
    c == '\U{1680}' || '\U{2000}' <= c <= '\U{200A}' || c == '\U{2028}' || c == '\U{2029}' ||
    c == '\U{202F}' || c == '\U{205F}' || c == '\U{3000}'
  }

  /** A string with no whitespace at either end: what `strip()` leaves behind. */
  predicate IsStripped(s: string)
  {
    s == [] || (!IsSpace(s[0]) && !IsSpace(s[|s| - 1]))
  }

  predicate AllSpace(s: string)
  {
    forall j :: 0 <= j < |s| ==> IsSpace(s[j])
  }

  /** `s` with its leading whitespace removed (`lstrip()`). */
  function TrimStart(s: string): string
  {
    if |s| > 0 && IsSpace(s[0]) then TrimStart(s[1..]) else s
  }

  /** `s` with its trailing whitespace removed (`rstrip()`). */
  function TrimEnd(s: string): string
  {
    if |s| > 0 && IsSpace(s[|s| - 1]) then TrimEnd(s[..|s| - 1]) else s
  }

  /** `TrimStart` removes a prefix of whitespace and stops at the first other character. */
  lemma {:induction false} TrimStartShape(s: string)
    ensures var r := TrimStart(s);
      |r| <= |s| && r == s[|s| - |r|..] && AllSpace(s[..|s| - |r|]) &&
      (r != [] ==> !IsSpace(r[0]))
  {
    if |s| > 0 && IsSpace(s[0]) {
      TrimStartShape(s[1..]);
      var r := TrimStart(s[1..]);
      assert s[1..][|s| - 1 - |r|..] == s[|s| - |r|..];
      assert forall j :: 0 < j < |s| - |r| ==> s[j] == s[1..][..|s| - 1 - |r|][j - 1];
    }
  }

  /** `TrimEnd` removes a suffix of whitespace and stops after the last other character. */
  lemma {:induction false} TrimEndShape(s: string)
    ensures var r := TrimEnd(s);
      |r| <= |s| && r == s[..|r|] && AllSpace(s[|r|..]) &&
      (r != [] ==> !IsSpace(r[|r| - 1]))
  {
    if |s| > 0 && IsSpace(s[|s| - 1]) {
      var init := s[..|s| - 1];
      TrimEndShape(init);
      var r := TrimEnd(init);
      assert init[..|r|] == s[..|r|];
      assert forall j :: |r| <= j < |s| - 1 ==> s[j] == init[|r|..][j - |r|];
    }
  }

  /**
   * Python's `s.strip()`: what is left once leading and trailing whitespace
   * are removed.
   */
  function Strip(s: string): string
  {
    TrimEnd(TrimStart(s))
  }

  /**
   * `strip()` leaves no whitespace at either end, leaves nothing exactly when
   * `s` is all whitespace, and removes whitespace only: its result is an
   * infix of `s` with nothing but whitespace on either side.
   */
  lemma StripShape(s: string)
    ensures var r := Strip(s);
      IsStripped(r) && (r == [] <==> AllSpace(s)) &&
      exists i :: 0 <= i <= |s| - |r| && r == s[i..i + |r|] &&
                  AllSpace(s[..i]) && AllSpace(s[i + |r|..])
  {
    var t := TrimStart(s);
    var r := TrimEnd(t);
    TrimStartShape(s);
    TrimEndShape(t);
    var i := |s| - |t|;
    assert r == s[i..i + |r|];
    assert s[i + |r|..] == t[|r|..];
    if r == [] {
      assert forall j :: 0 <= j < |s| ==> IsSpace(s[j]) by {
        forall j | 0 <= j < |s| ensures IsSpace(s[j]) {
          if j < i { assert s[j] == s[..i][j]; }
        }
      }
    } else {
      assert !IsSpace(s[i]);
    }
  }

  /** A string with a non-whitespace character does not strip to nothing. */
  lemma StripKeepsNonSpace(s: string, i: nat)
    requires i < |s| && !IsSpace(s[i])
    ensures Strip(s) != []
  {
    StripShape(s);
  }

  /** Stripping is idempotent: a stripped string is its own `strip()`. */
  lemma StrippedIsFixed(s: string)
    requires IsStripped(s)
    ensures Strip(s) == s
  {
  }

  /** `sub` occurs in `s` at index `i`. */
  predicate OccursAt(s: string, sub: string, i: int)
  {
    0 <= i && i + |sub| <= |s| && s[i..i + |sub|] == sub
  }

  /** `sub` occurs somewhere in `s[lo:hi]`. */
  predicate OccursIn(s: string, sub: string, lo: int, hi: int)
  {
    exists i :: lo <= i && i + |sub| <= hi && OccursAt(s, sub, i)
  }

  /**
   * Python's `s.rfind(sub, lo, hi)` for bounds with `0 <= lo` and
   * `hi <= len(s)`: the largest `i` with `lo <= i`, `i + len(sub) <= hi` at
   * which `sub` occurs, or -1 when there is none (see `RFindIsLast`).
   */
  function RFind(s: string, sub: string, lo: nat, hi: nat): (r: int)
    requires hi <= |s|
    ensures r == -1 || (lo <= r && r + |sub| <= hi)
    decreases hi
  {
    if hi < lo + |sub| then -1
    else if s[hi - |sub|..hi] == sub then hi - |sub|
    else RFind(s, sub, lo, hi - 1)
  }

  /**
   * `rfind` returns an index where `sub` occurs inside `s[lo:hi]` with no
   * occurrence further right, and returns -1 exactly when `sub` does not
   * occur there.
   */
  lemma {:induction false} RFindIsLast(s: string, sub: string, lo: nat, hi: nat)
    requires hi <= |s|
    ensures var r := RFind(s, sub, lo, hi);
      (r == -1 || OccursAt(s, sub, r)) &&
      (forall i :: r < i && lo <= i && i + |sub| <= hi ==> !OccursAt(s, sub, i)) &&
      (r == -1 <==> !OccursIn(s, sub, lo, hi))
    decreases hi
  {
    if hi >= lo + |sub| && s[hi - |sub|..hi] != sub {
      RFindIsLast(s, sub, lo, hi - 1);
      assert !OccursAt(s, sub, hi - |sub|);
    }
  }

  /**
   * Python's `s[start:end]` for `0 <= start` and `0 <= end`: an end past the
   * string is clamped, and a start at or past the end gives the empty string.
   */
  function Slice(s: string, start: nat, end: nat): string
  {
    var e := if end <= |s| then end else |s|;
    if start < e then s[start..e] else []
  }

  /** Adjacent slices compose: `s[a:b] + s[b:c] == s[a:c]`. */
  lemma SliceCompose(s: string, a: nat, b: nat, c: nat)
    requires a <= b <= c
    ensures Slice(s, a, b) + Slice(s, b, c) == Slice(s, a, c)
  {
    if a < b && b < |s| {
      var e := if c <= |s| then c else |s|;
      assert s[a..b] + s[b..e] == s[a..e];
    }
  }

  /** The ASCII digit for `d`. */
  function DigitChar(d: nat): char
    requires d < 10
  {
    ['0', '1', '2', '3', '4', '5', '6', '7', '8', '9'][d]
  }

  /** The value of an ASCII digit. */
  function DigitValue(c: char): nat
    requires '0' <= c <= '9'
  {
    (c as int - '0' as int) as nat
  }

  predicate IsDigits(s: string)
  {
    forall k :: 0 <= k < |s| ==> '0' <= s[k] <= '9'
  }

  /** `str(n)` for a non-negative integer: its decimal digits, no leading zero. */
  function Decimal(n: nat): (r: string)
    ensures r != [] && IsDigits(r)
    ensures |r| > 1 ==> r[0] != '0'
  {
    if n < 10 then [DigitChar(n)] else Decimal(n / 10) + [DigitChar(n % 10)]
  }

  /** The number a string of decimal digits denotes. */
  function DecimalValue(s: string): nat
    requires IsDigits(s)
  {
    if s == [] then 0 else DecimalValue(s[..|s| - 1]) * 10 + DigitValue(s[|s| - 1])
  }

  /** Reading back the digits `str` wrote gives the number: `int(str(n)) == n`. */
  lemma {:induction false} DecimalRoundTrip(n: nat)
    ensures DecimalValue(Decimal(n)) == n
  {
    var r := Decimal(n);
    if n >= 10 {
      DecimalRoundTrip(n / 10);
      assert r[..|r| - 1] == Decimal(n / 10);
    }
  }

  /** Different numbers are written differently. */
  lemma DecimalInjective(m: nat, n: nat)
    requires Decimal(m) == Decimal(n)
    ensures m == n
  {
    DecimalRoundTrip(m);
    DecimalRoundTrip(n);
  }

  /** `str(i)` for any integer: a minus sign before the digits of a negative number. */
  function IntToString(i: int): (r: string)
    ensures r != []
    ensures i >= 0 ==> IsDigits(r)
    ensures i < 0 ==> r[0] == '-' && IsDigits(r[1..])
  {
    if i >= 0 then Decimal(i) else "-" + Decimal(-i)
  }

  /** `s[:n]` for `n >= 0`: the first `n` characters, or all of `s` when it is shorter. */
  function Prefix(s: string, n: nat): (r: string)
    ensures |r| == if |s| <= n then |s| else n
    ensures r <= s
  {
    if |s| <= n then s else s[..n]
  }

  /**
   * `sep.join(parts)`: the parts in order with `sep` between neighbours, and
   * the empty string for no parts.
   */
  function Join(sep: string, parts: seq<string>): string
  {
    if parts == [] then ""
    else if |parts| == 1 then parts[0]
    else parts[0] + sep + Join(sep, parts[1..])
  }

  /** The total length of `parts`. */
  function TotalLength(parts: seq<string>): nat
  {
    if parts == [] then 0 else |parts[0]| + TotalLength(parts[1..])
  }

  /**
   * Joining two non-empty lists is joining each and putting one separator
   * between them: every part appears once, in order, with a separator
   * between neighbours.
   */
  lemma {:induction false} JoinAppend(sep: string, a: seq<string>, b: seq<string>)
    requires a != [] && b != []
    ensures Join(sep, a + b) == Join(sep, a) + sep + Join(sep, b)
  {
    if |a| == 1 {
      assert (a + b)[1..] == b;
    } else {
      assert (a + b)[1..] == a[1..] + b;
      JoinAppend(sep, a[1..], b);
    }
  }

  /** The joined string is as long as its parts plus one separator between each pair of neighbours. */
  lemma {:induction false} JoinLength(sep: string, parts: seq<string>)
    requires parts != []
    ensures |Join(sep, parts)| == TotalLength(parts) + (|parts| - 1) * |sep|
  {
    if |parts| > 1 {
      JoinLength(sep, parts[1..]);
    }
  }

  /**
   * The joined string starts with the first part; part `k` follows the
   * joined parts before it and one separator.
   */
  lemma JoinPrefix(sep: string, parts: seq<string>, k: nat)
    requires k < |parts|
    ensures k == 0 ==> parts[0] <= Join(sep, parts)
    ensures k > 0 ==> Join(sep, parts[..k]) + sep + parts[k] <= Join(sep, parts)
  {
    if k > 0 {
      assert parts == parts[..k] + parts[k..];
      JoinAppend(sep, parts[..k], parts[k..]);
      JoinPrefix(sep, parts[k..], 0);
    } else if |parts| > 1 {
      assert Join(sep, parts) == parts[0] + (sep + Join(sep, parts[1..]));
    }
  }
}

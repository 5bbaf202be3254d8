/** Strings the way the services handle them: white space, stripping, decimal numbers and joining. */
module Text {

  /** The characters that strip() and split() treat as white space. */
  predicate IsSpace(c: char) {
    || '\t' <= c <= '\r' || c == ' '
    || '\U{1C}' <= c <= '\U{1F}' || c == '\U{85}' || c == '\U{A0}' || c == '\U{1680}'
    || '\U{2000}' <= c <= '\U{200A}' || c == '\U{2028}' || c == '\U{2029}'
    || c == '\U{202F}' || c == '\U{205F}' || c == '\U{3000}'
  }

  /** The first position from `i` on that is not white space. */
  function SkipSpace(s: string, i: nat): (n: nat)
    requires i <= |s|
    ensures i <= n <= |s|
    ensures forall k :: i <= k < n ==> IsSpace(s[k])
    ensures n < |s| ==> !IsSpace(s[n])
    decreases |s| - i
  {
    if i == |s| || !IsSpace(s[i]) then i else SkipSpace(s, i + 1)
  }

  /** The length that remains of the first `n` characters without their trailing white space. */
  function DropSpace(s: string, n: nat): (m: nat)
    requires n <= |s|
    ensures m <= n
    ensures forall k :: m <= k < n ==> IsSpace(s[k])
    ensures m > 0 ==> !IsSpace(s[m - 1])
  {
    if n == 0 || !IsSpace(s[n - 1]) then n else DropSpace(s, n - 1)
  }

  function Lead(s: string): nat {
    SkipSpace(s, 0)
  }

  function Trimmed(s: string): nat {
    DropSpace(s, |s|)
  }

  function RStrip(s: string): string {
    s[..Trimmed(s)]
  }

  function Strip(s: string): (r: string)
    ensures |r| <= |s|
  {
    if Lead(s) >= Trimmed(s) then "" else s[Lead(s)..Trimmed(s)]
  }

  predicate Visible(s: string) {
    Strip(s) != ""
  }

  /** Stripping loses no visible character and leaves none but visible ones at the edges. */
  lemma {:induction false} StripKeepsVisible(s: string, k: nat)
    requires k < |s| && !IsSpace(s[k])
    ensures Lead(s) <= k < Lead(s) + |Strip(s)| && Strip(s)[k - Lead(s)] == s[k]
    ensures !IsSpace(Strip(s)[0]) && !IsSpace(Strip(s)[|Strip(s)| - 1])
  {}

  function Digit(d: nat): char
    requires d < 10
  {
    ['0', '1', '2', '3', '4', '5', '6', '7', '8', '9'][d]
  }

  function Natural(n: nat): (s: string)
    ensures s != ""
  {
    if n < 10 then [Digit(n)] else Natural(n / 10) + [Digit(n % 10)]
  }

  /** str() of an integer. */
  function Decimal(n: int): string {
    if n < 0 then "-" + Natural(-n) else Natural(n)
  }

  predicate IsDigit(c: char) {
    '0' <= c <= '9'
  }

  /** int() of a run of digits. */
  function Value(s: string): nat
    requires forall k :: 0 <= k < |s| ==> IsDigit(s[k])
  {
    if s == "" then 0
    else
      assert IsDigit(s[|s| - 1]);
      10 * Value(s[..|s| - 1]) + (s[|s| - 1] as int - '0' as int)
  }

  lemma {:induction false} NaturalReadsBack(n: nat)
    ensures forall k :: 0 <= k < |Natural(n)| ==> IsDigit(Natural(n)[k])
    ensures Value(Natural(n)) == n
  {
    if n >= 10 {
      NaturalReadsBack(n / 10);
      var s := Natural(n);
      assert s[..|s| - 1] == Natural(n / 10);
    } else {
      var s := Natural(n);
      assert s[..0] == "";
    }
  }

  /** Different numbers are printed differently. */
  lemma NaturalIsInjective(a: nat, b: nat)
    requires a != b
    ensures Natural(a) != Natural(b)
  {
    NaturalReadsBack(a);
    NaturalReadsBack(b);
  }

  /** A larger number is never printed shorter. */
  lemma {:induction false} NaturalGrows(a: nat, b: nat)
    requires a <= b
    ensures |Natural(a)| <= |Natural(b)|
    decreases b
  {
    if a >= 10 { NaturalGrows(a / 10, b / 10); }
  }

  /** separator.join(parts) */
  function Join(parts: seq<string>, separator: string): string {
    if parts == [] then ""
    else if |parts| == 1 then parts[0]
    else parts[0] + separator + Join(parts[1..], separator)
  }

  function Concat(parts: seq<string>): string {
    if parts == [] then "" else parts[0] + Concat(parts[1..])
  }

  lemma {:induction false} ConcatSplits(a: seq<string>, b: seq<string>)
    ensures Concat(a + b) == Concat(a) + Concat(b)
  {
    if a == [] {
      assert a + b == b;
    } else {
      ConcatSplits(a[1..], b);
      assert (a + b)[1..] == a[1..] + b;
    }
  }

  /** Every part stands in the joined text, the parts before it and behind it joined around it. */
  lemma {:induction false} JoinedPart(parts: seq<string>, separator: string, i: nat)
    requires i < |parts|
    ensures Join(parts, separator) == (if i == 0 then "" else Join(parts[..i], separator) + separator) + parts[i]
                                      + (if i == |parts| - 1 then "" else separator + Join(parts[i + 1..], separator))
  {
    if i > 0 {
      JoinedPart(parts[1..], separator, i - 1);
      assert parts[1..][..i - 1] == parts[..i][1..] && parts[1..][i..] == parts[i + 1..];
      assert parts[..1] == [parts[0]];
    }
  }

  lemma {:induction false} JoinAppends(parts: seq<string>, last: string, separator: string)
    requires parts != []
    ensures Join(parts + [last], separator) == Join(parts, separator) + separator + last
  {
    var longer := parts + [last];
    assert longer[1..] == parts[1..] + [last];
    if |parts| > 1 { JoinAppends(parts[1..], last, separator); }
  }
}

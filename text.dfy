/** String helpers: prefixes, containment, and the decimal rendering `QString::number` performs. */
module Text {

  predicate StartsWith(s: string, prefix: string) {
    |prefix| <= |s| && s[..|prefix|] == prefix
  }

  /** `part` occurs somewhere inside `s`. */
  predicate Contains(s: string, part: string)
    decreases |s|
  {
    StartsWith(s, part) || (|s| > 0 && Contains(s[1..], part))
  }

  /** Whatever is glued between a prefix and a suffix can be found in the result. */
  lemma {:induction false} ContainsInside(pre: string, part: string, post: string)
    ensures Contains(pre + part + post, part)
  {
    if pre == [] {
      assert pre + part + post == part + post;
      assert (part + post)[..|part|] == part;
    } else {
      assert (pre + part + post)[1..] == pre[1..] + part + post;
      ContainsInside(pre[1..], part, post);
    }
  }

  /** The pieces of a message glued together in order. */
  function Concat(pieces: seq<string>): string {
    if pieces == [] then [] else pieces[0] + Concat(pieces[1..])
  }

  lemma {:induction false} ConcatSplit(pieces: seq<string>, k: nat)
    requires k < |pieces|
    ensures Concat(pieces) == Concat(pieces[..k]) + pieces[k] + Concat(pieces[k + 1..])
  {
    if k > 0 {
      ConcatSplit(pieces[1..], k - 1);
      assert pieces[1..][..k - 1] == pieces[1..k];
      assert pieces[1..][k..] == pieces[k + 1..];
      assert pieces[..k][1..] == pieces[1..k];
    }
  }

  /** Every piece of a glued message can be found in it, and the message starts with its first piece. */
  lemma ConcatContainsPiece(pieces: seq<string>, k: nat)
    requires k < |pieces|
    ensures Contains(Concat(pieces), pieces[k])
    ensures StartsWith(Concat(pieces), pieces[0])
  {
    ConcatSplit(pieces, k);
    ContainsInside(Concat(pieces[..k]), pieces[k], Concat(pieces[k + 1..]));
    assert (pieces[0] + Concat(pieces[1..]))[..|pieces[0]|] == pieces[0];
  }

  predicate IsDigit(c: char) {
    '0' <= c <= '9'
  }

  predicate AllDigits(s: string) {
    forall i :: 0 <= i < |s| ==> IsDigit(s[i])
  }

  function DigitChar(d: nat): (c: char)
    requires d < 10
    ensures IsDigit(c) && c as int - '0' as int == d
  {
    "0123456789"[d]
  }

  /** Base-10 rendering of a non-negative number, as `QString::number(n)` produces it. */
  function NumberText(n: nat): (s: string)
    ensures |s| >= 1 && AllDigits(s)
    ensures s[0] == '0' ==> n == 0
  {
    if n < 10 then [DigitChar(n)] else NumberText(n / 10) + [DigitChar(n % 10)]
  }

  /** Reads a string of decimal digits back as a number: the reference reading of `NumberText`. */
  function DecimalValue(s: string): nat
    requires AllDigits(s)
  {
    if s == [] then 0 else DecimalValue(s[..|s| - 1]) * 10 + (s[|s| - 1] as int - '0' as int)
  }

  lemma {:induction false} DecimalRoundTrip(n: nat)
    ensures DecimalValue(NumberText(n)) == n
  {
    if n >= 10 {
      var s := NumberText(n);
      assert s[..|s| - 1] == NumberText(n / 10);
      DecimalRoundTrip(n / 10);
    }
  }

  /** Different numbers are rendered as different texts, so a message quoting a number identifies it. */
  lemma NumberTextInjective(a: nat, b: nat)
    ensures NumberText(a) == NumberText(b) ==> a == b
  {
    DecimalRoundTrip(a);
    DecimalRoundTrip(b);
  }
}

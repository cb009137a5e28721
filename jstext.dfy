/** Building blocks of the emitted JavaScript text: separator-joined lists
    and the decimal text of an integer. */
module JsText {

  /** `xs` joined by `sep`, with no leading or trailing separator; built
      from the right so that appending one more item is one more step. */
  function Join(sep: string, xs: seq<string>): string {
    if |xs| == 0 then ""
    else if |xs| == 1 then xs[0]
    else Join(sep, xs[..|xs| - 1]) + sep + xs[|xs| - 1]
  }

  /** Appending an item to a non-empty list appends the separator and the
      item to the joined text. */
  lemma JoinSnoc(sep: string, xs: seq<string>, x: string)
    requires |xs| > 0
    ensures Join(sep, xs + [x]) == Join(sep, xs) + sep + x
  {
    assert (xs + [x])[..|xs|] == xs;
  }

  /** Joining two non-empty lists is joining each and putting one separator
      between the two texts. */
  lemma {:induction false} JoinAppend(sep: string, xs: seq<string>, ys: seq<string>)
    requires |xs| > 0 && |ys| > 0
    ensures Join(sep, xs + ys) == Join(sep, xs) + sep + Join(sep, ys)
    decreases |ys|
  {
    if |ys| == 1 {
      JoinSnoc(sep, xs, ys[0]);
      assert xs + ys == xs + [ys[0]];
    } else {
      var init, last := ys[..|ys| - 1], ys[|ys| - 1];
      assert ys == init + [last];
      assert xs + ys == (xs + init) + [last];
      JoinAppend(sep, xs, init);
      JoinSnoc(sep, xs + init, last);
      JoinSnoc(sep, init, last);
    }
  }

  /** The text a separator-joining loop has built so far: a prefix, the
      items joined, and a pending separator when another item follows. */
  function Partial(pre: string, sep: string, ts: seq<string>, more: bool): string {
    pre + Join(sep, ts) + (if more then sep else "")
  }

  /** One more item, appended after the pending separator (if any). */
  lemma PartialItem(pre: string, sep: string, ts: seq<string>, t: string)
    ensures Partial(pre, sep, ts, |ts| > 0) + t == Partial(pre, sep, ts + [t], false)
  {
    if |ts| > 0 {
      JoinSnoc(sep, ts, t);
    } else {
      assert ts + [t] == [t];
    }
  }

  /** Dropping the last separator of a loop that ends every item with one. */
  lemma DropSeparator(pre: string, sep: string, ts: seq<string>)
    requires |ts| > 0
    ensures var s := Partial(pre, sep, ts, true);
            |s| >= |sep| && s[..|s| - |sep|] == pre + Join(sep, ts)
  {
    var s := Partial(pre, sep, ts, true);
    assert s == (pre + Join(sep, ts)) + sep;
  }

  predicate IsDigit(c: char) {
    '0' <= c <= '9'
  }

  function DigitChar(d: nat): (c: char)
    requires d < 10
    ensures IsDigit(c) && c as int - '0' as int == d
  {
    ('0' as int + d) as char
  }

  /** `toString()` of a non-negative integer: its decimal digits, most
      significant first, with no leading zero. */
  function NatText(n: nat): (r: string)
    ensures |r| > 0 && forall i :: 0 <= i < |r| ==> IsDigit(r[i])
    ensures r[0] == '0' ==> n == 0
  {
    if n < 10 then [DigitChar(n)] else NatText(n / 10) + [DigitChar(n % 10)]
  }

  /** The value of a string of decimal digits. */
  function DigitsValue(s: string): nat
    requires forall i :: 0 <= i < |s| ==> IsDigit(s[i])
  {
    if s == [] then 0
    else
      assert IsDigit(s[|s| - 1]);
      DigitsValue(s[..|s| - 1]) * 10 + (s[|s| - 1] as int - '0' as int)
  }

  /** Reading the digits back gives the number. */
  lemma {:induction false} NatTextValue(n: nat)
    ensures DigitsValue(NatText(n)) == n
  {
    if n >= 10 {
      NatTextValue(n / 10);
      var s := NatText(n);
      assert s[..|s| - 1] == NatText(n / 10);
    } else {
      assert [DigitChar(n)][..0] == [];
    }
  }

  /** `toString()` of an integer: a '-' before the digits of a negative one. */
  function IntText(n: int): (r: string)
    ensures |r| > 0
    ensures (r[0] == '-') <==> n < 0
  {
    if n < 0 then "-" + NatText(-n) else NatText(n)
  }
}

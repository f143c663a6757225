/** Decimal rendering of integers inside keys, and its inverse. */
module Decimal {
  import opened RunModel

  function DigitChar(d: nat): (c: char)
    requires d < 10
    ensures '0' <= c <= '9'
  {
    '0' + d as char
  }

  function RenderNat(n: nat): (s: string)
    ensures s != [] && forall i :: 0 <= i < |s| ==> '0' <= s[i] <= '9'
  {
    if n < 10 then [DigitChar(n)] else RenderNat(n / 10) + [DigitChar(n % 10)]
  }

  function Render(n: int): string {
    if n < 0 then "-" + RenderNat(-n) else RenderNat(n)
  }

  predicate AllDigits(s: string) { forall i :: 0 <= i < |s| ==> '0' <= s[i] <= '9' }

  function ParseDigits(s: string): nat
    requires AllDigits(s)
  {
    if s == [] then 0
    else ParseDigits(s[..|s| - 1]) * 10 + (s[|s| - 1] - '0') as nat
  }

  /** `int(text)` on ASCII decimals. */
  function ParseInt(s: string): Option<int> {
    if s != [] && AllDigits(s) then Some(ParseDigits(s))
    else if |s| > 1 && s[0] == '-' && AllDigits(s[1..]) then
      var magnitude: int := ParseDigits(s[1..]);
      Some(-magnitude)
    else None
  }

  lemma {:induction false} ParseRenderNat(n: nat)
    ensures ParseDigits(RenderNat(n)) == n
  {
    if n >= 10 {
      var s := RenderNat(n);
      assert s[..|s| - 1] == RenderNat(n / 10);
      ParseRenderNat(n / 10);
    }
  }

  lemma ParseRender(n: int)
    ensures ParseInt(Render(n)) == Some(n)
  {
    if n < 0 {
      ParseRenderNat(-n);
      assert Render(n)[1..] == RenderNat(-n);
    } else {
      ParseRenderNat(n);
    }
  }

  lemma RenderInjective(a: int, b: int)
    requires Render(a) == Render(b)
    ensures a == b
  {
    ParseRender(a);
    ParseRender(b);
  }
}

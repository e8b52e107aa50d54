/** The grid-line rule of the renderer (src/SimRender/index.ts). */
module SimRender {
  import opened LineWeight

  /** `calcLineWidth(i)` as a weight: the drawn width is 0.005 times `w`.
      The `while` loop raises `eTry` while 5^eTry divides `i`. */
  method CalcLineWidth(i: int) returns (w: nat)
    ensures w == Weight(i)
  {
    if i == 0 {
      return Pow(3, 3);
    }
    var eTry: nat := 1;
    while JsRem(i, Pow(5, eTry)) == 0
      invariant eTry >= 1
      invariant Abs(i) % Pow(5, eTry - 1) == 0
      decreases Abs(i) - Pow(5, eTry - 1)
    {
      DivisorBound(Abs(i), Pow(5, eTry));
      eTry := eTry + 1;
    }
    FiveExponentUnique(Abs(i), eTry - 1);
    w := Pow(3, eTry - 1);
  }
}

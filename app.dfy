/** The earlier copy of the grid-line rule in src/App.tsx. */
module App {
  import opened LineWeight

  /** `calcLineWidth(i)` as a weight. Here the search is a `for` loop with an
      empty body: test, then step `eTry`, until 5^eTry no longer divides `i`. */
  method CalcLineWidth(i: int) returns (w: nat)
    ensures w == Weight(i)
  {
    if i == 0 {
      return Pow(3, 3);
    }
    var eTry: nat := 1;
    while true
      invariant eTry >= 1
      invariant Abs(i) % Pow(5, eTry - 1) == 0
      decreases Abs(i) - Pow(5, eTry - 1)
    {
      if JsRem(i, Pow(5, eTry)) != 0 {
        break;
      }
      DivisorBound(Abs(i), Pow(5, eTry));
      eTry := eTry + 1;
    }
    FiveExponentUnique(Abs(i), eTry - 1);
    w := Pow(3, eTry - 1);
  }
}

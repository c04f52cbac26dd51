// Liquidity and token amounts of a price range (model/liquidityMath.go), over exact reals. A
// range is given by the square roots of its two prices; where the original takes a square root,
// the root is a parameter that squares to the radicand.
module LiquidityMath {
  import opened Basics

  predicate IsRoot(s: real, x: real) {
    s >= 0.0 && s * s == x
  }

  // ---------------------------------------------------------------------------------------------
  // Solving for the root price inside a range

  function TermA(quoteFlow: real, ask: real): real {
    quoteFlow * ask
  }

  function TermB(baseFlow: real, quoteFlow: real, bid: real, ask: real): real {
    baseFlow - quoteFlow * bid * ask
  }

  function TermC(baseFlow: real, ask: real): real {
    -baseFlow * ask
  }

  function Discriminant(baseFlow: real, quoteFlow: real, bid: real, ask: real): real {
    TermB(baseFlow, quoteFlow, bid, ask) * TermB(baseFlow, quoteFlow, bid, ask)
    - 4.0 * TermA(quoteFlow, ask) * TermC(baseFlow, ask)
  }

  // The solution with a plus, if it is in the range, and the one with a minus otherwise.
  function DeriveRootFromInRange(baseFlow: real, quoteFlow: real, bid: real, ask: real, s: real): real
    requires quoteFlow != 0.0 && ask != 0.0
  {
    var termA, termB := TermA(quoteFlow, ask), TermB(baseFlow, quoteFlow, bid, ask);
    var solutionPos := (-termB + s) / (2.0 * termA);
    var solutionNeg := (-termB - s) / (2.0 * termA);
    if solutionPos >= bid && solutionPos <= ask then solutionPos else solutionNeg
  }

  // At this root price the base flow and the quote flow amount to the same liquidity.
  predicate Balances(baseFlow: real, quoteFlow: real, bid: real, ask: real, x: real)
    requires 0.0 < bid < x < ask
  {
    baseFlow / (x - bid) == quoteFlow / (1.0 / x - 1.0 / ask)
  }

  function Polynomial(a: real, b: real, c: real, x: real): real {
    a * x * x + b * x + c
  }

  lemma Subst(a: real, p: real, q: real)
    requires p == q
    ensures a * p == a * q && p * a == q * a
  {
  }

  lemma Divided(x: real, d: real, l: real)
    requires d != 0.0 && x == d * l
    ensures x / d == l
  {
  }

  // A quadratic with roots x and y.
  lemma Factors(a: real, b: real, c: real, s: real, x: real, y: real, z: real)
    requires a != 0.0 && s * s == b * b - 4.0 * a * c
    requires x * (2.0 * a) == -b + s && y * (2.0 * a) == -b - s
    ensures Polynomial(a, b, c, z) == a * ((z - x) * (z - y))
  {
  }

  lemma SignOfProduct(a: real, w: real)
    requires a != 0.0
    ensures a * (a * w) < 0.0 <==> w < 0.0
    ensures a * (a * w) > 0.0 <==> w > 0.0
  {
  }

  lemma PositiveTimes(q: real, w: real)
    requires q > 0.0
    ensures q * w < 0.0 <==> w < 0.0
    ensures q * w > 0.0 <==> w > 0.0
  {
  }

  // A quadratic whose sign changes between bid and ask, and is that of -a at bid, has one root
  // between them and the other below.
  lemma RootsAround(a: real, b: real, c: real, s: real, x: real, y: real, bid: real, ask: real)
    requires a != 0.0 && bid < ask && s * s == b * b - 4.0 * a * c
    requires x * (2.0 * a) == -b + s && y * (2.0 * a) == -b - s
    requires a * Polynomial(a, b, c, bid) < 0.0 && a * Polynomial(a, b, c, ask) > 0.0
    ensures (y < bid < x < ask) || (x < bid < y < ask)
  {
    hide Polynomial;
    Factors(a, b, c, s, x, y, bid);
    Factors(a, b, c, s, x, y, ask);
    SignOfProduct(a, (bid - x) * (bid - y));
    SignOfProduct(a, (ask - x) * (ask - y));
    OneEachSide(bid, ask, x, y);
  }

  lemma NotZero(quoteFlow: real, ask: real, baseFlow: real)
    requires baseFlow * quoteFlow > 0.0 && ask > 0.0
    ensures TermA(quoteFlow, ask) != 0.0 && quoteFlow != 0.0 && baseFlow != 0.0
  {
  }

  lemma OneEachSide(bid: real, ask: real, x: real, y: real)
    requires bid < ask && (bid - x) * (bid - y) < 0.0 && (ask - x) * (ask - y) > 0.0
    ensures (y < bid < x < ask) || (x < bid < y < ask)
  {
    if bid <= x && bid <= y {
      FlipBoth(x - bid, y - bid);
      SameSigns(x - bid, y - bid);
    } else if x <= bid && y <= bid {
      SameSigns(bid - x, bid - y);
    } else if x >= ask {
      SameSigns(x - ask, ask - y);
    } else if y >= ask {
      SameSigns(y - ask, ask - x);
    }
  }

  lemma FlipBoth(u: real, v: real)
    ensures u * v == (-u) * (-v)
  {
  }

  lemma SameSigns(u: real, v: real)
    requires u >= 0.0 && v >= 0.0
    ensures u * v >= 0.0 && (-u) * v <= 0.0 && v * (-u) <= 0.0
  {
  }

  // The root of the balance: where both flows amount to the same liquidity the polynomial is 0.
  lemma BalanceIsRoot(baseFlow: real, quoteFlow: real, bid: real, ask: real, x: real)
    requires 0.0 < bid < x < ask
    ensures Balances(baseFlow, quoteFlow, bid, ask, x) <==>
      Polynomial(TermA(quoteFlow, ask), TermB(baseFlow, quoteFlow, bid, ask), TermC(baseFlow, ask), x) == 0.0
  {
  }

  // For flows of one sign the solver finds a root price strictly inside the range, at which both
  // flows amount to the same liquidity, and it is the only one.
  lemma SolverFindsBalance(baseFlow: real, quoteFlow: real, bid: real, ask: real, s: real)
    requires baseFlow * quoteFlow > 0.0 && 0.0 < bid < ask && IsRoot(s, Discriminant(baseFlow, quoteFlow, bid, ask))
    ensures quoteFlow != 0.0
    ensures var r := DeriveRootFromInRange(baseFlow, quoteFlow, bid, ask, s);
      bid < r < ask && forall x :: bid < x < ask ==> (Balances(baseFlow, quoteFlow, bid, ask, x) <==> x == r)
  {
    hide TermA, TermB, TermC, Polynomial, Balances, IsRoot;
    NotZero(quoteFlow, ask, baseFlow);
    var a, b, c := TermA(quoteFlow, ask), TermB(baseFlow, quoteFlow, bid, ask), TermC(baseFlow, ask);
    var x, y := (-b + s) / (2.0 * a), (-b - s) / (2.0 * a);
    SolutionsAround(baseFlow, quoteFlow, bid, ask, s, a, b, c, x, y);
    var r := DeriveRootFromInRange(baseFlow, quoteFlow, bid, ask, s);
    forall z | bid < z < ask ensures Balances(baseFlow, quoteFlow, bid, ask, z) <==> z == r {
      OnlyBalance(baseFlow, quoteFlow, bid, ask, s, a, b, c, x, y, z);
    }
  }

  // The two solutions of the quadratic.
  ghost predicate Solutions(baseFlow: real, quoteFlow: real, bid: real, ask: real, s: real, a: real, b: real, c: real,
          x: real, y: real) {
    && a == TermA(quoteFlow, ask) && b == TermB(baseFlow, quoteFlow, bid, ask) && c == TermC(baseFlow, ask)
    && a != 0.0 && x == (-b + s) / (2.0 * a) && y == (-b - s) / (2.0 * a)
    && IsRoot(s, Discriminant(baseFlow, quoteFlow, bid, ask))
  }

  lemma SolutionsSolve(baseFlow: real, quoteFlow: real, bid: real, ask: real, s: real, a: real,
          b: real, c: real, x: real, y: real)
    requires Solutions(baseFlow, quoteFlow, bid, ask, s, a, b, c, x, y)
    ensures s * s == b * b - 4.0 * a * c && x * (2.0 * a) == -b + s && y * (2.0 * a) == -b - s
  {
  }

  lemma SignsChange(baseFlow: real, quoteFlow: real, bid: real, ask: real, a: real, b: real, c: real)
    requires baseFlow * quoteFlow > 0.0 && 0.0 < bid < ask
    requires a == TermA(quoteFlow, ask) && b == TermB(baseFlow, quoteFlow, bid, ask) && c == TermC(baseFlow, ask)
    ensures a * Polynomial(a, b, c, bid) < 0.0 && a * Polynomial(a, b, c, ask) > 0.0
  {
  }

  lemma SolutionsAround(baseFlow: real, quoteFlow: real, bid: real, ask: real, s: real, a: real,
          b: real, c: real, x: real, y: real)
    requires Solutions(baseFlow, quoteFlow, bid, ask, s, a, b, c, x, y) && baseFlow * quoteFlow > 0.0 && 0.0 < bid < ask
    ensures (y < bid < x < ask) || (x < bid < y < ask)
  {
    assert a == TermA(quoteFlow, ask) && b == TermB(baseFlow, quoteFlow, bid, ask) && c == TermC(baseFlow, ask) && a != 0.0;
    hide *;
    SolutionsSolve(baseFlow, quoteFlow, bid, ask, s, a, b, c, x, y);
    SignsChange(baseFlow, quoteFlow, bid, ask, a, b, c);
    RootsAround(a, b, c, s, x, y, bid, ask);
  }

  lemma OnlyBalance(baseFlow: real, quoteFlow: real, bid: real, ask: real, s: real, a: real,
          b: real, c: real, x: real, y: real, z: real)
    requires Solutions(baseFlow, quoteFlow, bid, ask, s, a, b, c, x, y) && 0.0 < bid < z < ask
    ensures Balances(baseFlow, quoteFlow, bid, ask, z) <==> z == x || z == y
  {
    assert a == TermA(quoteFlow, ask) && b == TermB(baseFlow, quoteFlow, bid, ask) && c == TermC(baseFlow, ask) && a != 0.0;
    hide *;
    SolutionsSolve(baseFlow, quoteFlow, bid, ask, s, a, b, c, x, y);
    BalanceIsRoot(baseFlow, quoteFlow, bid, ask, z);
    Factors(a, b, c, s, x, y, z);
    OnlyRoots(a, x, y, z);
  }

  lemma OnlyRoots(a: real, x: real, y: real, z: real)
    requires a != 0.0
    ensures a * ((z - x) * (z - y)) == 0.0 <==> z == x || z == y
  {
  }

  // ---------------------------------------------------------------------------------------------
  // Liquidity of flows, and tokens of liquidity

  // `s` is the root of the discriminant, which only counts when both flows do.
  function DeriveLiquidityFromConcFlow(baseFlow: real, quoteFlow: real, bid: real, ask: real, s: real): Option<real>
    requires 0.0 < bid < ask
  {
    if quoteFlow == 0.0 then Some(baseFlow / (ask - bid))
    else if baseFlow == 0.0 then
      if 1.0 / bid - 1.0 / ask == 0.0 then None else Some(quoteFlow / (1.0 / bid - 1.0 / ask))
    else
      var price := DeriveRootFromInRange(baseFlow, quoteFlow, bid, ask, s);
      if price == bid then None else Some(baseFlow / (price - bid))
  }

  function Clamp(price: real, bid: real, ask: real): real {
    if price > ask * ask then ask * ask else if price < bid * bid then bid * bid else price
  }

  // The tokens of a position at a price, before truncation; `r` is the root of the clamped price.
  function DeriveTokensFromConcLiquidity(liquidity: real, bid: real, ask: real, price: real, r: real): Option<(real,
          real)>
    requires 0.0 < bid < ask && IsRoot(r, Clamp(price, bid, ask))
  {
    RootInRange(bid, ask, price, r);
    if price == 0.0 then None
    else Some(((r - bid) * liquidity, (ask - r) / (r * ask) * liquidity))
  }

  lemma SquareMonotone(x: real, y: real)
    requires x >= 0.0 && y >= 0.0
    ensures x <= y <==> x * x <= y * y
  {
    assert x * x - y * y == (x + y) * (x - y);
    if x + y > 0.0 { PositiveTimes(x + y, x - y); }
  }

  lemma RootInRange(bid: real, ask: real, price: real, r: real)
    requires 0.0 < bid < ask && IsRoot(r, Clamp(price, bid, ask))
    ensures bid <= r <= ask && r * ask > 0.0
    ensures price <= bid * bid ==> r == bid
    ensures price >= ask * ask ==> r == ask
  {
    SquareMonotone(bid, ask);
    SquareMonotone(bid, r);
    SquareMonotone(r, ask);
    SquareMonotone(r, bid);
    SquareMonotone(ask, r);
  }

  // With the tokens that would take the price out of the range added, what a position holds are the
  // reserves of a constant product, the square of its liquidity, at the clamped price.
  lemma TokensAreReserves(liquidity: real, bid: real, ask: real, price: real, r: real)
    requires 0.0 < bid < ask && price != 0.0 && IsRoot(r, Clamp(price, bid, ask))
    ensures var tokens := DeriveTokensFromConcLiquidity(liquidity, bid, ask, price, r).value;
      var base, quote := tokens.0 + liquidity * bid, tokens.1 + liquidity / ask;
      base * quote == liquidity * liquidity && base == quote * (r * r)
  {
    hide IsRoot, Clamp;
    RootInRange(bid, ask, price, r);
    QuoteReserve(liquidity, r, ask);
    Quotient(liquidity, r);
    Reserves(liquidity, r, liquidity / r, bid);
    var tokens := DeriveTokensFromConcLiquidity(liquidity, bid, ask, price, r).value;
    assert tokens.0 + liquidity * bid == liquidity * r;
    assert tokens.1 + liquidity / ask == liquidity / r;
  }

  lemma Reserves(l: real, r: real, q: real, bid: real)
    requires q * r == l
    ensures (r - bid) * l + l * bid == l * r
    ensures (l * r) * q == l * l && l * r == q * (r * r)
  {
    assert (l * r) * q == l * (q * r);
    assert l * r == q * r * r;
  }

  lemma Quotient(x: real, y: real)
    requires y != 0.0
    ensures x / y * y == x
  {
  }

  lemma QuoteReserve(l: real, r: real, ask: real)
    requires 0.0 < r <= ask
    ensures r * ask > 0.0 && (ask - r) / (r * ask) * l + l / ask == l / r
  {
    PositiveTimes(r, ask);
    Divided(ask - r, r * ask, 1.0 / r - 1.0 / ask);
    assert (ask - r) / (r * ask) == 1.0 / r - 1.0 / ask;
    assert (1.0 / r - 1.0 / ask) * l == l / r - l / ask;
  }

  // Feeding a position's tokens back gives its liquidity, whether the price is below, inside or
  // above the range. (At a price of 0 there are no tokens to feed back.)
  lemma LiquidityRoundTrip(liquidity: real, bid: real, ask: real, price: real, r: real, s: real)
    requires liquidity > 0.0 && 0.0 < bid < ask && price != 0.0 && IsRoot(r, Clamp(price, bid, ask))
    requires var tokens := DeriveTokensFromConcLiquidity(liquidity, bid, ask, price, r).value;
      bid < r < ask ==> IsRoot(s, Discriminant(tokens.0, tokens.1, bid, ask))
    ensures var tokens := DeriveTokensFromConcLiquidity(liquidity, bid, ask, price, r).value;
      DeriveLiquidityFromConcFlow(tokens.0, tokens.1, bid, ask, s) == Some(liquidity)
  {
    RootInRange(bid, ask, price, r);
    var baseFlow, quoteFlow := (r - bid) * liquidity, (ask - r) / (r * ask) * liquidity;
    if r == ask {
      AskRoundTrip(liquidity, bid, ask, baseFlow, quoteFlow, s);
    } else if r == bid {
      BidRoundTrip(liquidity, bid, ask, baseFlow, quoteFlow, s);
    } else {
      PositiveTimes(r, ask);
      InsideRoundTrip(liquidity, bid, ask, r, baseFlow, quoteFlow, s);
    }
  }

  lemma AskRoundTrip(liquidity: real, bid: real, ask: real, baseFlow: real, quoteFlow: real, s: real)
    requires 0.0 < bid < ask && ask * ask > 0.0
    requires baseFlow == (ask - bid) * liquidity && quoteFlow == (ask - ask) / (ask * ask) * liquidity
    ensures DeriveLiquidityFromConcFlow(baseFlow, quoteFlow, bid, ask, s) == Some(liquidity)
  {
    Divided(ask - ask, ask * ask, 0.0);
    Subst(liquidity, (ask - ask) / (ask * ask), 0.0);
    Divided(baseFlow, ask - bid, liquidity);
  }

  lemma BidRoundTrip(liquidity: real, bid: real, ask: real, baseFlow: real, quoteFlow: real, s: real)
    requires liquidity > 0.0 && 0.0 < bid < ask && bid * ask > 0.0
    requires baseFlow == (bid - bid) * liquidity && quoteFlow == (ask - bid) / (bid * ask) * liquidity
    ensures DeriveLiquidityFromConcFlow(baseFlow, quoteFlow, bid, ask, s) == Some(liquidity)
  {
    GapQuotient(bid, ask);
    Subst(liquidity, (ask - bid) / (bid * ask), 1.0 / bid - 1.0 / ask);
    PositiveTimes((ask - bid) / (bid * ask), liquidity);
    Divided(quoteFlow, 1.0 / bid - 1.0 / ask, liquidity);
  }

  lemma InsideRoundTrip(liquidity: real, bid: real, ask: real, r: real, baseFlow: real,
          quoteFlow: real, s: real)
    requires liquidity > 0.0 && 0.0 < bid < r < ask && r * ask > 0.0
    requires baseFlow == (r - bid) * liquidity && quoteFlow == (ask - r) / (r * ask) * liquidity
    requires IsRoot(s, Discriminant(baseFlow, quoteFlow, bid, ask))
    ensures DeriveLiquidityFromConcFlow(baseFlow, quoteFlow, bid, ask, s) == Some(liquidity)
  {
    hide Discriminant, DeriveRootFromInRange, Balances, IsRoot;
    InsideBalances(liquidity, bid, ask, r);
    GapQuotient(r, ask);
    PositiveProduct(baseFlow, r - bid, liquidity);
    PositiveProduct(quoteFlow, (ask - r) / (r * ask), liquidity);
    PositiveTimes(baseFlow, quoteFlow);
    SolverFindsBalance(baseFlow, quoteFlow, bid, ask, s);
    Divided(baseFlow, r - bid, liquidity);
  }

  lemma PositiveProduct(x: real, g: real, l: real)
    requires x == g * l && g > 0.0 && l > 0.0
    ensures x > 0.0
  {
  }

  // The quote side of a position, written as a difference of inverse roots.
  lemma GapQuotient(r: real, ask: real)
    requires 0.0 < r < ask
    ensures r * ask > 0.0 && (ask - r) / (r * ask) == 1.0 / r - 1.0 / ask > 0.0
  {
  }

  lemma InsideBalances(liquidity: real, bid: real, ask: real, r: real)
    requires 0.0 < bid < r < ask
    ensures r * ask > 0.0 && Balances((r - bid) * liquidity, (ask - r) / (r * ask) * liquidity, bid, ask, r)
  {
  }

  // The liquidity of flows out of a range is the negative of that of the same flows into it. (One
  // of the two flows may be zero; both go the same way.)
  lemma OutIsMinusIn(baseFlow: real, quoteFlow: real, bid: real, ask: real, s: real)
    requires baseFlow * quoteFlow >= 0.0 && 0.0 < bid < ask
    requires baseFlow != 0.0 && quoteFlow != 0.0 ==> IsRoot(s, Discriminant(baseFlow, quoteFlow, bid, ask))
    ensures Discriminant(-baseFlow, -quoteFlow, bid, ask) == Discriminant(baseFlow, quoteFlow, bid, ask)
    ensures var into, out := DeriveLiquidityFromConcFlow(baseFlow, quoteFlow, bid, ask, s), DeriveLiquidityFromConcFlow(-baseFlow, -quoteFlow, bid, ask, s);
      into.Some? && out.Some? && out.value == -into.value
  {
    hide Discriminant, DeriveRootFromInRange, Balances, IsRoot;
    SameDiscriminant(baseFlow, quoteFlow, bid, ask);
    if quoteFlow == 0.0 {
      Negated(baseFlow, ask - bid);
    } else if baseFlow == 0.0 {
      GapQuotient(bid, ask);
      Negated(quoteFlow, 1.0 / bid - 1.0 / ask);
    } else {
      NonZeroProduct(baseFlow, quoteFlow);
      TwoSidedOut(baseFlow, quoteFlow, bid, ask, s);
    }
  }

  lemma NonZeroProduct(a: real, b: real)
    requires a != 0.0 && b != 0.0
    ensures a * b != 0.0
  {
  }

  lemma TwoSidedOut(baseFlow: real, quoteFlow: real, bid: real, ask: real, s: real)
    requires baseFlow * quoteFlow > 0.0 && 0.0 < bid < ask && IsRoot(s, Discriminant(baseFlow, quoteFlow, bid, ask))
    ensures var into, out := DeriveLiquidityFromConcFlow(baseFlow, quoteFlow, bid, ask, s), DeriveLiquidityFromConcFlow(-baseFlow, -quoteFlow, bid, ask, s);
      into.Some? && out.Some? && out.value == -into.value
  {
    hide Discriminant, DeriveRootFromInRange, Balances, IsRoot;
    SameDiscriminant(baseFlow, quoteFlow, bid, ask);
    FlipBoth(baseFlow, quoteFlow);
    SolverFindsBalance(baseFlow, quoteFlow, bid, ask, s);
    SolverFindsBalance(-baseFlow, -quoteFlow, bid, ask, s);
    var r := DeriveRootFromInRange(baseFlow, quoteFlow, bid, ask, s);
    BalanceFlips(baseFlow, quoteFlow, bid, ask, r);
    Negated(baseFlow, r - bid);
    NotZero(quoteFlow, ask, baseFlow);
  }

  lemma BalanceFlips(baseFlow: real, quoteFlow: real, bid: real, ask: real, r: real)
    requires 0.0 < bid < r < ask && Balances(baseFlow, quoteFlow, bid, ask, r)
    ensures Balances(-baseFlow, -quoteFlow, bid, ask, r)
  {
  }

  lemma Negated(a: real, d: real)
    requires d != 0.0
    ensures (-a) / d == -(a / d)
  {
  }

  lemma SameDiscriminant(baseFlow: real, quoteFlow: real, bid: real, ask: real)
    ensures Discriminant(-baseFlow, -quoteFlow, bid, ask) == Discriminant(baseFlow, quoteFlow, bid, ask)
  {
  }

  // Ambient liquidity, where the whole price range is covered.
  lemma AmbientRoundTrip(liquidity: real, r: real, l: real)
    requires liquidity > 0.0 && r > 0.0 && IsRoot(l, (liquidity * r) * (liquidity / r))
    ensures l == liquidity
  {
  }
}

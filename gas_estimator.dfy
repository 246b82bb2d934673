/** The gas and fee estimate attached to every ISCN transaction
    (`estimateISCNTxGas`). The estimate is a linear fit over the byte length
    `n` of the stable-key-order JSON of the message:
      gas = n * 3.58 + 99443.87 + 50000,   fee = gas * 10,
    computed in exact decimal arithmetic and rendered with
    `toFixed(0, ROUND_UP)`. All quantities are held here in hundredths, so the
    model is exact: 100 * gas = 358 * n + 14944387. */
module GasEstimator {
  import opened Decimal

  const SlopeHundredths: nat := 358         // GAS_ESTIMATOR_SLOP = 3.58
  const InterceptHundredths: nat := 9944387 // GAS_ESTIMATOR_INTERCEPT = 99443.87
  const Buffer: nat := 50000                // GAS_ESTIMATOR_BUFFER
  const GasPrice: nat := 10                 // DEFAULT_GAS_PRICE_NUMBER
  const FeeDenom: string := "nanolike"

  datatype Coin = Coin(amount: string, denom: string)

  /** The `{ amount: [...], gas }` fee object handed to the signer. */
  datatype GasEstimate = GasEstimate(amount: seq<Coin>, gas: string)

  /** One hundred times the exact, unrounded gas for a message of `n` bytes. */
  function ExactGasHundredths(n: nat): nat {
    n * SlopeHundredths + InterceptHundredths + Buffer * 100
  }

  /** Rounding mode 0 of bignumber.js (ROUND_UP, away from zero) applied to
      the non-negative rational num / den: the least integer not below it. */
  function RoundUp(num: nat, den: nat): (r: nat)
    requires den > 0
    ensures r * den >= num
    ensures r > 0 ==> (r - 1) * den < num
  {
    (num + den - 1) / den
  }

  /** The gas limit: the exact gas rounded up to a whole unit. */
  function GasUnits(n: nat): (g: nat)
    ensures 100 * g >= ExactGasHundredths(n) > 100 * (g - 1)
  {
    RoundUp(ExactGasHundredths(n), 100)
  }

  /** The fee amount: ten times the UNROUNDED gas, rounded up to a whole
      nanolike. */
  function FeeUnits(n: nat): (f: nat)
    ensures 100 * f >= GasPrice * ExactGasHundredths(n) > 100 * (f - 1)
  {
    RoundUp(GasPrice * ExactGasHundredths(n), 100)
  }

  /** `estimateISCNTxGas` for a message whose serialisation is `n` bytes long. */
  function EstimateGas(n: nat): (e: GasEstimate)
    ensures |e.amount| == 1 && e.amount[0].denom == FeeDenom
    ensures Canonical(e.gas) && ParseDecimal(e.gas) == GasUnits(n)
    ensures Canonical(e.amount[0].amount) && ParseDecimal(e.amount[0].amount) == FeeUnits(n)
  {
    ParseToDecimal(GasUnits(n));
    ParseToDecimal(FeeUnits(n));
    GasEstimate([Coin(ToDecimal(FeeUnits(n)), FeeDenom)], ToDecimal(GasUnits(n)))
  }

  /** Rounding up is monotone in the numerator. */
  lemma RoundUpMonotone(a: nat, b: nat, den: nat)
    requires den > 0 && a <= b
    ensures RoundUp(a, den) <= RoundUp(b, den)
  {
    var ra, rb := RoundUp(a, den), RoundUp(b, den);
    if ra > rb {
      assert rb <= ra - 1;
      MulMonotone(rb, ra - 1, den);
    }
  }

  lemma MulMonotone(x: nat, y: nat, k: nat)
    requires x <= y
    ensures x * k <= y * k
  {
  }

  /** The gas limit is never below the rounded intercept plus buffer. */
  lemma GasLowerBound(n: nat)
    ensures GasUnits(n) >= 149444
  {
    var g := GasUnits(n);
    assert 100 * g >= 14944387;
  }

  /** The gas limit does not decrease as the message grows. */
  lemma GasMonotone(m: nat, n: nat)
    requires m <= n
    ensures GasUnits(m) <= GasUnits(n)
  {
    MulMonotone(m, n, SlopeHundredths);
    RoundUpMonotone(ExactGasHundredths(m), ExactGasHundredths(n), 100);
  }

  /** The fee amount does not decrease as the message grows. */
  lemma FeeMonotone(m: nat, n: nat)
    requires m <= n
    ensures FeeUnits(m) <= FeeUnits(n)
  {
    MulMonotone(m, n, SlopeHundredths);
    MulMonotone(ExactGasHundredths(m), ExactGasHundredths(n), GasPrice);
    RoundUpMonotone(GasPrice * ExactGasHundredths(m), GasPrice * ExactGasHundredths(n), 100);
  }

  /** Because the fee is taken from the unrounded gas, it never exceeds the
      gas limit times the gas price and falls short of it by at most 9. */
  lemma FeeVersusRoundedGas(n: nat)
    ensures FeeUnits(n) <= GasPrice * GasUnits(n) <= FeeUnits(n) + 9
  {
    var x := ExactGasHundredths(n);
    var g, f := GasUnits(n), FeeUnits(n);
    assert 100 * f < 10 * x + 100;
    assert 100 * g < x + 100;
  }

  /** Worked values: 1000 bytes, and the empty serialisation. */
  lemma Examples()
    ensures GasUnits(1000) == 153024 && FeeUnits(1000) == 1530239
    ensures GasUnits(0) == 149444 && FeeUnits(0) == 1494439
  {
  }

  /** The fee is not always the rounded gas times the gas price. */
  lemma FeeNotRoundedGasTimesPrice()
    ensures exists n: nat :: FeeUnits(n) != GasPrice * GasUnits(n)
  {
    assert FeeUnits(1000) != GasPrice * GasUnits(1000);
  }
}

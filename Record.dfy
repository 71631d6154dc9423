// framework/Record.kt: a player's tally of wins, losses and draws. The source's
// counters are 32-bit `Int`s; here they are unbounded integers. Its ratios are
// `Double`s; here they are exact, and `compareTo` compares them by
// cross-multiplying, which needs plays on both sides.
module Records {

  /** `Record(wins, losses, draws)`; the data class's equality is this datatype's. */
  datatype Record = Record(wins: int, losses: int, draws: int) {

    /** `totalPlays`. */
    function TotalPlays(): int {
      wins + losses + draws
    }

    /** `winsRatio`, exactly. */
    ghost function WinsRatio(): real
      requires TotalPlays() != 0
    {
      wins as real / TotalPlays() as real
    }

    /** `lossesRatio`, exactly. */
    ghost function LossesRatio(): real
      requires TotalPlays() != 0
    {
      losses as real / TotalPlays() as real
    }

    /** `reversed()`: the opponent's tally. */
    function Reversed(): Record {
      Record(losses, wins, draws)
    }

    /** `plus(other)`: counter by counter. */
    function Plus(other: Record): Record {
      Record(wins + other.wins, losses + other.losses, draws + other.draws)
    }

    /**
     * `compareTo(other)`: by win ratio, then inversely by loss ratio, else 0;
     * each ratio comparison is made on the cross products.
     */
    function CompareTo(other: Record): (r: int)
      requires TotalPlays() > 0 && other.TotalPlays() > 0
      ensures -1 <= r <= 1
    {
      var mine := wins * other.TotalPlays();
      var theirs := other.wins * TotalPlays();
      if mine != theirs then (if mine < theirs then -1 else 1)
      else
        var myLosses := losses * other.TotalPlays();
        var theirLosses := other.losses * TotalPlays();
        if myLosses != theirLosses then (if myLosses < theirLosses then 1 else -1)
        else 0
    }
  }

  /** The default record: no plays. */
  const Zero: Record := Record(0, 0, 0)

  /** The default record has no plays. */
  lemma ZeroHasNoPlays()
    ensures Zero.TotalPlays() == 0
  {
  }

  /** Reversing twice gives the record back, and keeps the number of plays. */
  lemma ReversedInvolution(r: Record)
    ensures r.Reversed().Reversed() == r
    ensures r.Reversed().TotalPlays() == r.TotalPlays()
    ensures r.Reversed().draws == r.draws
  {
  }

  /** Adding is commutative and associative, the default record is its identity, and plays add up. */
  lemma PlusLaws(a: Record, b: Record, c: Record)
    ensures a.Plus(b) == b.Plus(a)
    ensures a.Plus(b).Plus(c) == a.Plus(b.Plus(c))
    ensures a.Plus(Zero) == a && Zero.Plus(a) == a
    ensures a.Plus(b).TotalPlays() == a.TotalPlays() + b.TotalPlays()
    ensures a.Plus(b).Reversed() == a.Reversed().Plus(b.Reversed())
  {
  }

  /** The sign of x - y. */
  function Sign(x: real, y: real): int {
    if x < y then -1 else if y < x then 1 else 0
  }

  /** With positive denominators, comparing cross products compares the quotients. */
  lemma CrossMultiply(p: int, s: int, q: int, t: int)
    requires s > 0 && t > 0
    ensures p * t < q * s <==> p as real / s as real < q as real / t as real
    ensures p * t == q * s <==> p as real / s as real == q as real / t as real
  {
    var x := p as real / s as real;
    var y := q as real / t as real;
    assert p as real == x * s as real;
    assert q as real == y * t as real;
    assert (p * t) as real == x * (s as real * t as real);
    assert (q * s) as real == y * (s as real * t as real);
    assert s as real * t as real > 0.0;
  }

  /**
   * `compareTo` ranks the higher win ratio greater, and between equal win
   * ratios the lower loss ratio greater.
   */
  lemma CompareToRatios(a: Record, b: Record)
    requires a.TotalPlays() > 0 && b.TotalPlays() > 0
    ensures a.CompareTo(b) == if a.WinsRatio() != b.WinsRatio() then Sign(a.WinsRatio(), b.WinsRatio())
                              else -Sign(a.LossesRatio(), b.LossesRatio())
  {
    CrossMultiply(a.wins, a.TotalPlays(), b.wins, b.TotalPlays());
    CrossMultiply(a.losses, a.TotalPlays(), b.losses, b.TotalPlays());
  }

  /** Comparing is antisymmetric, and a record ties with itself. */
  lemma CompareToAntisymmetric(a: Record, b: Record)
    requires a.TotalPlays() > 0 && b.TotalPlays() > 0
    ensures a.CompareTo(b) == -b.CompareTo(a)
    ensures a.CompareTo(a) == 0
  {
  }

  /** Scaling a record changes none of its ratios, so it ties with the original. */
  lemma CompareToScaled(a: Record, k: int)
    requires a.TotalPlays() > 0 && k > 0
    ensures a.CompareTo(Record(k * a.wins, k * a.losses, k * a.draws)) == 0
  {
    var scaled := Record(k * a.wins, k * a.losses, k * a.draws);
    assert scaled.TotalPlays() == k * a.TotalPlays();
    assert a.wins * scaled.TotalPlays() == scaled.wins * a.TotalPlays();
    assert a.losses * scaled.TotalPlays() == scaled.losses * a.TotalPlays();
  }
}

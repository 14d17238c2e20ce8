/** Boost: a speed multiplier that stays active until its end instant (milliseconds). */
module Boosts {
  import opened Seqs

  /** `factor` multiplies the agent's displacement; `end` is the last active millisecond. */
  datatype Boost = Boost(factor: real, end: int)
  {
    /** Expired strictly after `end`: still active at `now == end`. */
    predicate Expired(now: int)
    {
      now > end
    }
  }

  /** The constructor `Boost(factor, durationMs)`, with the clock read as `now`. */
  function NewBoost(factor: real, durationMs: int, now: int): (b: Boost)
    ensures b.factor == factor
    ensures b.end - now == durationMs
    ensures durationMs >= 0 ==> !b.Expired(now)
  {
    Boost(factor, now + durationMs)
  }

  /** A boost made at `now` for `durationMs` is active at every instant from `now` to
      `now + durationMs` inclusive, and expired at every instant after. */
  lemma ActiveWindow(factor: real, durationMs: int, now: int, t: int)
    ensures now <= t <= now + durationMs ==> !NewBoost(factor, durationMs, now).Expired(t)
    ensures t > now + durationMs ==> NewBoost(factor, durationMs, now).Expired(t)
  {
  }

  /** Once expired, a boost stays expired. */
  lemma ExpiredMonotone(b: Boost, t: int, t': int)
    requires b.Expired(t) && t <= t'
    ensures b.Expired(t')
  {
  }

  /** The boost list with every boost expired at `now` removed, the rest kept in order. */
  function Active(bs: seq<Boost>, now: int): (r: seq<Boost>)
    ensures forall i :: 0 <= i < |r| ==> r[i] in bs && !r[i].Expired(now)
    ensures forall i :: 0 <= i < |bs| && !bs[i].Expired(now) ==> bs[i] in r
    ensures forall b :: Count(r, b) == if b.Expired(now) then 0 else Count(bs, b)
    ensures SubSeq(r, bs)
  {
    Keep(bs, (b: Boost) => !b.Expired(now))
  }

  /** The product of the boost factors, folded from the left starting at 1.0. */
  function Product(bs: seq<Boost>): real
  {
    if bs == [] then 1.0 else Product(bs[..|bs| - 1]) * bs[|bs| - 1].factor
  }

  /** The empty product is exactly 1.0, and a single boost contributes its own factor. */
  lemma ProductBase(b: Boost)
    ensures Product([]) == 1.0
    ensures Product([b]) == b.factor
  {
    assert [b][..0] == [];
  }

  /** Factors of at least 1 (such as the 1.05 of a steal) give a product of at least 1:
      boosts never slow an agent down. */
  lemma {:induction false} ProductAtLeastOne(bs: seq<Boost>)
    requires forall i :: 0 <= i < |bs| ==> bs[i].factor >= 1.0
    ensures Product(bs) >= 1.0
    decreases |bs|
  {
    if bs != [] {
      var init := bs[..|bs| - 1];
      ProductAtLeastOne(init);
      var p, f := Product(init), bs[|bs| - 1].factor;
      assert p * f - 1.0 == (p - 1.0) * f + (f - 1.0);
      assert (p - 1.0) * f >= 0.0;
    }
  }

  /** Positive factors give a positive product. */
  lemma {:induction false} ProductPositive(bs: seq<Boost>)
    requires forall i :: 0 <= i < |bs| ==> bs[i].factor > 0.0
    ensures Product(bs) > 0.0
    decreases |bs|
  {
    if bs != [] {
      ProductPositive(bs[..|bs| - 1]);
    }
  }
}

/** The catch-up policy of the synchronizer: how a chain's stored height is
    compared with the tip its node reports, with a fixed safety margin. */
module Policy {

  /** Number of blocks behind the tip that are never ingested (reorg safety). */
  const SafetyMargin: int := 3

  /** Length, in seconds, of the pause taken by a chain sitting on the boundary. */
  const CooldownSeconds: nat := 5

  /** The three outcomes of the comparison made for every served chain. */
  datatype Branch = Lagging | AtBoundary | Ahead

  /** Classifies a stored height against a reported tip. Because `Branch`
      has exactly three constructors, the three ensures together say that the
      branches are mutually exclusive and cover every pair of integers. */
  function Decide(height: int, tip: int): (b: Branch)
    ensures b == Lagging <==> height < tip - SafetyMargin
    ensures b == AtBoundary <==> height == tip - SafetyMargin
    ensures b == Ahead <==> height > tip - SafetyMargin
  {
    if height < tip - SafetyMargin then Lagging
    else if tip - SafetyMargin == height then AtBoundary
    else Ahead
  }

  /** One advance from a lagging height never overshoots the boundary: at the
      same tip the next decision is Lagging again or AtBoundary. */
  lemma AdvanceNeverOvershoots(height: int, tip: int)
    requires Decide(height, tip) == Lagging
    ensures Decide(height + 1, tip) != Ahead
    ensures height + 1 <= tip - SafetyMargin
  {
  }
}

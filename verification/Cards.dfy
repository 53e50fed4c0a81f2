/** Card requests as the API accepts them, and the server's synchronization grid. */
module Cards {
  import opened Wrappers

  datatype CardRequest = CardRequest(
    title: string, body: string, style: string, displayAt: Option<int>, expiresAt: Option<int>)

  datatype TimeError = NotInTheFuture | ExpiresTooEarly

  const GUARANTEE_WINDOW_SECONDS := 20 * 60
  const DEFAULT_POLL_INTERVAL_SECONDS := 15 * 60

  /** The time rules of `CardRequest.from_mapping`, on timestamps already parsed. */
  function ValidateTimes(displayAt: Option<int>, expiresAt: Option<int>, now: int): Result<(), TimeError> {
    if displayAt.Some? && displayAt.value <= now then Err(NotInTheFuture)
    else
      var floor := if displayAt.Some? then displayAt.value else now;
      if expiresAt.Some? && expiresAt.value <= floor then Err(ExpiresTooEarly) else Ok(())
  }

  predicate Validated(card: CardRequest, now: int) {
    ValidateTimes(card.displayAt, card.expiresAt, now).Ok?
  }

  function EffectiveDisplayAt(card: CardRequest, now: int): int {
    if card.displayAt.Some? then card.displayAt.value else now
  }

  /** A card is accepted exactly when it will be shown no earlier than now and outlives its display time. */
  lemma AcceptedTimes(card: CardRequest, now: int)
    ensures Validated(card, now) <==>
            && (card.displayAt.Some? ==> card.displayAt.value > now)
            && (card.expiresAt.Some? ==> card.expiresAt.value > EffectiveDisplayAt(card, now) >= now)
  {
  }

  function IsExactDeliveryGuaranteed(displayAt: Option<int>, now: int): bool {
    displayAt.Some? && displayAt.value - now >= GUARANTEE_WINDOW_SECONDS
  }

  function NextRegularSync(now: int, pollInterval: int): int
    requires pollInterval > 0
  {
    (now / pollInterval + 1) * pollInterval
  }

  /** The first point of the polling grid strictly after now. */
  lemma NextSyncIsNextGridPoint(now: int, pollInterval: int, point: int)
    requires pollInterval > 0
    ensures now < NextRegularSync(now, pollInterval) <= now + pollInterval
    ensures NextRegularSync(now, pollInterval) % pollInterval == 0
    ensures point % pollInterval == 0 && point > now ==> NextRegularSync(now, pollInterval) <= point
  {
    var q, r := now / pollInterval, now % pollInterval;
    assert now == q * pollInterval + r;
    assert (q + 1) * pollInterval == q * pollInterval + pollInterval;
    GridMultiple(q + 1, pollInterval);
    if point % pollInterval == 0 && point > now {
      var p := point / pollInterval;
      assert point == p * pollInterval;
      if p < q + 1 {
        MulMonotone(p, q, pollInterval);
        assert false;
      }
      MulMonotone(q + 1, p, pollInterval);
    }
  }

  lemma GridMultiple(k: int, m: int)
    requires m > 0
    ensures k * m % m == 0
  {
    assert k * m == m * k;
    var d, r := k * m / m, k * m % m;
    assert k * m == d * m + r;
    assert (k - d) * m == r;
    if k - d > 0 {
      MulMonotone(1, k - d, m);
    } else if k - d < 0 {
      MulMonotone(k - d, -1, m);
    }
  }

  lemma MulMonotone(a: int, b: int, m: int)
    requires a <= b && m > 0
    ensures a * m <= b * m
  {
    assert (b - a) * m >= 0;
    assert b * m == a * m + (b - a) * m;
  }
}

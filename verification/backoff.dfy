/**
 * The delay arithmetic of the bot: the update loop's conflict backoff and
 * the startup retry's capped exponential base delay. Durations are in
 * milliseconds; sleeping itself is not modelled, only how long it lasts.
 */
module Backoff {
  import opened Text
  import opened Telegram

  /** `baseDelay` and `maxDelay` of `Run`. */
  const BaseDelay: int := 5000
  const MaxDelay: int := 60000
  /** The fixed sleep after a fetch error that is not a conflict. */
  const ErrorPause: int := 3000
  /** The pause after every processed batch. */
  const IdlePause: int := 100

  /** `initialBackoff`, `maxBackoff` and `maxRetries` of `NewBotService`. */
  const InitialBackoff: int := 1000
  const MaxBackoff: int := 30000
  const MaxRetries: nat := 5

  /** The bytes of "Conflict", the marker searched for in a fetch error's text. */
  const ConflictMarker: GoString := [67, 111, 110, 102, 108, 105, 99, 116]

  /** The result of one `GetUpdates` call. */
  datatype FetchOutcome = FetchFailed(error: GoString) | Fetched(updates: seq<Update>)

  /** A fetch error whose text contains "Conflict" anywhere. */
  predicate IsConflict(o: FetchOutcome)
    ensures IsConflict(o) <==> o.FetchFailed? && exists i: nat :: OccursAt(o.error, ConflictMarker, i)
  {
    o.FetchFailed? && Contains(o.error, ConflictMarker)
  }

  function Min(a: int, b: int): int
  {
    if a <= b then a else b
  }

  function Pow2(k: nat): (r: nat)
    ensures r >= 1
  {
    if k == 0 then 1 else 2 * Pow2(k - 1)
  }

  /**
   * `currentDelay` after one fetch: doubled up to the ceiling on a
   * conflict, back to the base on success, kept on any other error.
   */
  function NextDelay(delay: int, o: FetchOutcome): (r: int)
    ensures BaseDelay <= delay <= MaxDelay ==> BaseDelay <= r <= MaxDelay
    ensures IsConflict(o) && 0 < delay < MaxDelay ==> delay < r
    ensures o.Fetched? ==> r == BaseDelay
    ensures o.FetchFailed? && !IsConflict(o) ==> r == delay
  {
    if IsConflict(o) then Min(2 * delay, MaxDelay)
    else if o.FetchFailed? then delay
    else BaseDelay
  }

  /** How long the loop sleeps in an iteration with this outcome. */
  function PauseFor(delay: int, o: FetchOutcome): (r: int)
    ensures BaseDelay <= delay <= MaxDelay ==> IdlePause <= r <= MaxDelay
    ensures IsConflict(o) && 0 < delay < MaxDelay ==> r < NextDelay(delay, o)
    ensures IsConflict(o) && delay == MaxDelay ==> r == NextDelay(delay, o) == MaxDelay
    ensures o.FetchFailed? && !IsConflict(o) ==> r == ErrorPause
    ensures o.Fetched? ==> r == IdlePause
  {
    if IsConflict(o) then delay
    else if o.FetchFailed? then ErrorPause
    else IdlePause
  }

  /** `currentDelay` after a run of fetches, starting from `delay`. */
  function DelayAfter(delay: int, os: seq<FetchOutcome>): int
    decreases |os|
  {
    if os == [] then delay else NextDelay(DelayAfter(delay, os[..|os| - 1]), os[|os| - 1])
  }

  /** Whatever the fetches return, the delay never leaves [5s, 60s]. */
  lemma {:induction false} DelayAfterBounded(os: seq<FetchOutcome>)
    ensures BaseDelay <= DelayAfter(BaseDelay, os) <= MaxDelay
    decreases |os|
  {
    if os != [] {
      DelayAfterBounded(os[..|os| - 1]);
    }
  }

  /** One successful fetch resets the delay, whatever came before. */
  lemma ResetAfterSuccess(os: seq<FetchOutcome>, updates: seq<Update>)
    ensures DelayAfter(BaseDelay, os + [Fetched(updates)]) == BaseDelay
  {
    assert (os + [Fetched(updates)])[..|os|] == os;
  }

  /**
   * The k-th conflict in a row from the base sleeps the delay in force
   * before it, min(5s * 2^(k-1), 60s), and only then is the delay doubled.
   */
  lemma {:induction false} ConflictPauses(os: seq<FetchOutcome>)
    requires os != [] && forall i :: 0 <= i < |os| ==> IsConflict(os[i])
    ensures PauseFor(DelayAfter(BaseDelay, os[..|os| - 1]), os[|os| - 1]) == Min(BaseDelay * Pow2(|os| - 1), MaxDelay)
  {
    ConflictStreak(os[..|os| - 1]);
  }

  /**
   * After k consecutive conflicts from the base the delay is
   * min(5s * 2^k, 60s): it doubles four times and then stays at 60s.
   */
  lemma {:induction false} ConflictStreak(os: seq<FetchOutcome>)
    requires forall i :: 0 <= i < |os| ==> IsConflict(os[i])
    ensures DelayAfter(BaseDelay, os) == Min(BaseDelay * Pow2(|os|), MaxDelay)
    decreases |os|
  {
    if os != [] {
      var k := |os|;
      ConflictStreak(os[..k - 1]);
      assert Pow2(k) == 2 * Pow2(k - 1);
    }
  }

  /** The conflict delay rises strictly for four conflicts and then plateaus at 60s. */
  lemma ConflictStreakShape(os: seq<FetchOutcome>)
    requires forall i :: 0 <= i < |os| ==> IsConflict(os[i])
    ensures |os| < 4 ==> DelayAfter(BaseDelay, os) == BaseDelay * Pow2(|os|) < MaxDelay
    ensures |os| >= 4 ==> DelayAfter(BaseDelay, os) == MaxDelay
  {
    ConflictStreak(os);
    SmallPowers();
    var k := |os|;
    if k >= 4 {
      Pow2AtLeast(k, 4);
      var p := Pow2(k);
      assert BaseDelay * p == 5000 * p;
    } else if k == 0 {
      assert BaseDelay * Pow2(k) == 5000;
    } else if k == 1 {
      assert BaseDelay * Pow2(k) == 10000;
    } else if k == 2 {
      assert BaseDelay * Pow2(k) == 20000;
    } else {
      assert BaseDelay * Pow2(k) == 40000;
    }
  }

  lemma SmallPowers()
    ensures Pow2(0) == 1 && Pow2(1) == 2 && Pow2(2) == 4 && Pow2(3) == 8 && Pow2(4) == 16
  {
    assert Pow2(1) == 2 * Pow2(0);
    assert Pow2(2) == 2 * Pow2(1);
    assert Pow2(3) == 2 * Pow2(2);
    assert Pow2(4) == 2 * Pow2(3);
  }

  lemma {:induction false} Pow2AtLeast(k: nat, j: nat)
    requires j <= k
    ensures Pow2(j) <= Pow2(k)
    decreases k
  {
    if j < k {
      Pow2AtLeast(k - 1, j);
    }
  }

  /** The startup retry's sleep before jitter: 1s * 2^attempt, capped at 30s. */
  function RetryBaseDelay(attempt: nat): (r: int)
    ensures InitialBackoff <= r <= MaxBackoff
  {
    Min(InitialBackoff * Pow2(attempt), MaxBackoff)
  }

  /**
   * A retry sleep only follows attempts 0 to 3 (the last of the five
   * attempts does not sleep), and for those the 30s cap never applies.
   */
  lemma RetryCapUnreached(attempt: nat)
    requires attempt < MaxRetries - 1
    ensures RetryBaseDelay(attempt) == InitialBackoff * Pow2(attempt) <= 8000
  {
    SmallPowers();
  }

  /** Later retries never sleep less than earlier ones. */
  lemma RetryBaseDelayMonotone(a: nat, b: nat)
    requires a <= b
    ensures RetryBaseDelay(a) <= RetryBaseDelay(b)
  {
    Pow2AtLeast(b, a);
  }
}

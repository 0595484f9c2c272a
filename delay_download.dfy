/** delay_download/download.py: `delay_decorator` makes each user wait
    before every download, doubling the wait from call to call.

    The wait is only reported, not performed (`time.sleep` is left out), and
    the wrapped `download` is not modelled: its result is passed through
    unchanged. Users are keyed by `kwargs.get("user_id")`, modelled as
    `Option<U>`: `None` when no `user_id` keyword was passed, so all such
    calls share one entry. */
module DelayDownload {
  import opened Outcomes

  /** `max(1, delay * 2)`: the delay stored for the next call. */
  function NextDelay(delay: nat): (next: nat)
    ensures next >= 1
    ensures delay > 0 ==> next == 2 * delay
    ensures delay == 0 ==> next == 1
  {
    if delay * 2 > 1 then delay * 2 else 1
  }

  /** The delay a user's next call will wait for, after `calls` earlier
      calls by that user (0 before the first, since `get` defaults to 0). */
  function DelayBeforeCall(calls: nat): nat {
    if calls == 0 then 0 else NextDelay(DelayBeforeCall(calls - 1))
  }

  function Pow2(n: nat): nat {
    if n == 0 then 1 else 2 * Pow2(n - 1)
  }

  /** The n-th call of a fresh user waits 0, 1, 2, 4, ... units: none on the
      first call, 2^(n-2) on the n-th for n >= 2. */
  lemma {:induction false} DelayDoubles(n: nat)
    requires n >= 1
    ensures n == 1 ==> DelayBeforeCall(n - 1) == 0
    ensures n >= 2 ==> DelayBeforeCall(n - 1) == Pow2(n - 2)
  {
    if n > 2 {
      DelayDoubles(n - 1);
    }
  }

  /** The global `user_delay` map. The ghost `calls` counts each user's
      calls so far; `Valid` ties every stored delay to that count. */
  class UserDelay<U(==)> {
    var userDelay: map<Option<U>, nat>
    ghost var calls: map<Option<U>, nat>

    ghost predicate Valid()
      reads this
    {
      userDelay.Keys == calls.Keys &&
      forall u :: u in calls ==> userDelay[u] == DelayBeforeCall(calls[u])
    }

    /** `user_delay.get(user_id, 0)`. */
    function DelayFor(userId: Option<U>): nat
      reads this
    {
      if userId in userDelay then userDelay[userId] else 0
    }

    ghost function CallsBy(userId: Option<U>): nat
      reads this
    {
      if userId in calls then calls[userId] else 0
    }

    constructor ()
      ensures Valid()
      ensures userDelay == map[] && calls == map[]
    {
      userDelay := map[];
      calls := map[];
    }

    /** `delay_decorator.wrapper` up to the call of the wrapped function:
        returns the delay it waits for and whether it prints the notice. */
    method Call(userId: Option<U>) returns (delay: nat, notice: bool)
      requires Valid()
      modifies this
      ensures Valid()
      ensures delay == old(DelayFor(userId))
      ensures delay == DelayBeforeCall(old(CallsBy(userId)))
      ensures userDelay == old(userDelay)[userId := NextDelay(delay)]
      ensures calls == old(calls)[userId := old(CallsBy(userId)) + 1]
      ensures DelayFor(userId) >= 1
      ensures forall u :: u != userId ==> (u in userDelay <==> u in old(userDelay))
      ensures forall u :: u != userId && u in old(userDelay) ==> userDelay[u] == old(userDelay)[u]
      ensures notice <==> delay > 0
    {
      delay := if userId in userDelay then userDelay[userId] else 0;
      userDelay := userDelay[userId := if delay * 2 > 1 then delay * 2 else 1];
      calls := calls[userId := CallsBy(userId) + 1];
      notice := delay > 0;
    }
  }
}

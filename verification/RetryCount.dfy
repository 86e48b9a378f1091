/** Counting the rejections of an order message from its `x-death` header. */
module RetryCount {
  datatype Option<+T> = None | Some(value: T)

  const ORDER_QUEUE := "hmdp.order.create.queue"
  const RETRY_QUEUE := "hmdp.order.retry.queue"

  /** An entry of the header; the count may be missing or not a number. */
  datatype Death = Death(queue: string, reason: string, count: Option<int>)

  predicate IsRejection(d: Death) {
    d.queue == ORDER_QUEUE && d.reason == "rejected" && d.count.Some?
  }

  /** `getRetryCount`: the count of the first rejection from the order queue, else 0. */
  method GetRetryCount(xDeath: Option<seq<Death>>) returns (count: int)
    ensures xDeath.None? ==> count == 0
    ensures xDeath.Some? ==> count == Rejections(xDeath.value)
  {
    if xDeath.None? {
      return 0;
    }
    var list := xDeath.value;
    for i := 0 to |list|
      invariant Rejections(list) == Rejections(list[i..])
    {
      assert list[i..][0] == list[i] && list[i..][1..] == list[i + 1..];
      if list[i].queue == ORDER_QUEUE && list[i].reason == "rejected" {
        if list[i].count.Some? {
          return list[i].count.value;
        }
      }
    }
    return 0;
  }

  function Rejections(deaths: seq<Death>): int {
    if deaths == [] then 0
    else if IsRejection(deaths[0]) then deaths[0].count.value
    else Rejections(deaths[1..])
  }

  // ------------------------------------------------------------ what the broker writes

  function CountOf(deaths: seq<Death>, queue: string, reason: string): int {
    if deaths == [] then 0
    else if deaths[0].queue == queue && deaths[0].reason == reason && deaths[0].count.Some? then deaths[0].count.value
    else CountOf(deaths[1..], queue, reason)
  }

  function Without(deaths: seq<Death>, queue: string, reason: string): seq<Death> {
    if deaths == [] then []
    else if deaths[0].queue == queue && deaths[0].reason == reason then Without(deaths[1..], queue, reason)
    else [deaths[0]] + Without(deaths[1..], queue, reason)
  }

  /** The broker keeps one entry for each queue and reason, the latest first. */
  function Died(deaths: seq<Death>, queue: string, reason: string): seq<Death> {
    [Death(queue, reason, Some(CountOf(deaths, queue, reason) + 1))] + Without(deaths, queue, reason)
  }

  lemma {:induction false} OtherDeaths(deaths: seq<Death>, queue: string, reason: string)
    requires queue != ORDER_QUEUE || reason != "rejected"
    ensures Rejections(Without(deaths, queue, reason)) == Rejections(deaths)
  {
    if deaths != [] {
      OtherDeaths(deaths[1..], queue, reason);
    }
  }

  lemma {:induction false} RejectionsAreCounted(deaths: seq<Death>)
    ensures CountOf(deaths, ORDER_QUEUE, "rejected") == Rejections(deaths)
  {
    if deaths != [] {
      RejectionsAreCounted(deaths[1..]);
    }
  }

  /** A rejection counts as one retry more, and waiting in the retry queue as none. */
  lemma RetryCountCountsRejections(deaths: seq<Death>)
    ensures Rejections(Died(deaths, ORDER_QUEUE, "rejected")) == Rejections(deaths) + 1
    ensures Rejections(Died(deaths, RETRY_QUEUE, "expired")) == Rejections(deaths)
  {
    RejectionsAreCounted(deaths);
    OtherDeaths(deaths, RETRY_QUEUE, "expired");
    var expired := Died(deaths, RETRY_QUEUE, "expired");
    assert expired[1..] == Without(deaths, RETRY_QUEUE, "expired");
  }
}

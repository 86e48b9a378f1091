/** The watcher queue: what is queued while a flush runs is inserted into the part that has
    not run yet. Watchers are named by their ids. */
module Scheduler {
  type Id = nat

  const MAX_UPDATE_COUNT := 100

  function Elements(q: seq<Id>): set<Id> {
    set id | id in q
  }

  predicate Increasing(q: seq<Id>) {
    forall i, j | 0 <= i < j < |q| :: q[i] < q[j]
  }

  predicate Distinct(q: seq<Id>) {
    forall i, j | 0 <= i < j < |q| :: q[i] != q[j]
  }

  function Insert(q: seq<Id>, id: Id): seq<Id> {
    if q == [] || id < q[0] then [id] + q else [q[0]] + Insert(q[1..], id)
  }

  /** `queue.sort` by id. */
  function Sorted(q: seq<Id>): seq<Id> {
    if q == [] then [] else Insert(Sorted(q[1..]), q[0])
  }

  lemma IncreasingJoin(left: seq<Id>, right: seq<Id>)
    requires Increasing(left) && Increasing(right)
    requires left != [] && right != [] ==> left[|left| - 1] < right[0]
    ensures Increasing(left + right)
  {
    var q := left + right;
    forall i, j | 0 <= i < j < |q| ensures q[i] < q[j] {
      if i < |left| <= j {
        assert left[i] <= left[|left| - 1] < right[0] <= right[j - |left|];
      }
    }
  }

  lemma IncreasingParts(left: seq<Id>, right: seq<Id>)
    requires Increasing(left + right)
    ensures Increasing(left) && Increasing(right)
  {
    var q := left + right;
    assert forall i | 0 <= i < |left| :: left[i] == q[i];
    assert forall i | 0 <= i < |right| :: right[i] == q[|left| + i];
  }

  lemma ElementsJoin(left: seq<Id>, right: seq<Id>)
    ensures Elements(left + right) == Elements(left) + Elements(right)
  {
  }

  lemma FirstElement(q: seq<Id>)
    ensures Elements(q) == if q == [] then {} else {q[0]} + Elements(q[1..])
  {
    if q != [] {
      ElementsJoin([q[0]], q[1..]);
      assert q == [q[0]] + q[1..];
    }
  }

  lemma InElements(q: seq<Id>, id: Id)
    ensures id in Elements(q) <==> id in q
  {
  }

  lemma ElementsOne(id: Id)
    ensures Elements([id]) == {id} && Increasing([id])
  {
  }

  lemma {:induction false} InsertKeeps(q: seq<Id>, id: Id)
    requires Increasing(q) && id !in q
    ensures Increasing(Insert(q, id)) && Elements(Insert(q, id)) == Elements(q) + {id}
  {
    if q == [] || id < q[0] {
      IncreasingJoin([id], q);
      ElementsJoin([id], q);
    } else {
      assert q == [q[0]] + q[1..];
      IncreasingParts([q[0]], q[1..]);
      InsertKeeps(q[1..], id);
      var rest := Insert(q[1..], id);
      assert rest != [] ==> rest[0] in Elements(rest);
      IncreasingJoin([q[0]], rest);
      ElementsJoin([q[0]], rest);
      ElementsJoin([q[0]], q[1..]);
    }
  }

  lemma {:induction false} SortedSorts(q: seq<Id>)
    requires Distinct(q)
    ensures Increasing(Sorted(q)) && Elements(Sorted(q)) == Elements(q)
  {
    if q != [] {
      SortedSorts(q[1..]);
      assert q == [q[0]] + q[1..];
      assert q[0] !in q[1..];
      assert q[0] !in Elements(Sorted(q[1..]));
      InsertKeeps(Sorted(q[1..]), q[0]);
    }
  }

  /** The watchers that the run number `k` of a flush queues, in order. */
  function Requested(requests: seq<seq<Id>>, k: nat): seq<Id> {
    if k < |requests| then requests[k] else []
  }

  /** How often, up to run `n`, a watcher was queued again by its own run. */
  function SelfRequests(ran: seq<Id>, requests: seq<seq<Id>>, id: Id, n: nat): nat
    requires n <= |ran|
  {
    if n == 0 then 0
    else SelfRequests(ran, requests, id, n - 1) + (if ran[n - 1] == id && id in Requested(requests, n - 1) then 1 else 0)
  }

  /** The course of a flush: `pending[k]` is what waits before run `k`; each run takes the
      least pending watcher and adds what it queues. */
  predicate Course(pending: seq<set<Id>>, ran: seq<Id>, requests: seq<seq<Id>>) {
    |pending| == |ran| + 1 &&
    forall k | 0 <= k < |ran| ::
      ran[k] in pending[k] && (forall id | id in pending[k] :: ran[k] <= id) &&
      pending[k + 1] == pending[k] - {ran[k]} + Elements(Requested(requests, k))
  }

  /** What was pending at some point of the flush ran later, or is pending at its end. */
  lemma {:induction false} NoneDropped(pending: seq<set<Id>>, ran: seq<Id>, requests: seq<seq<Id>>, k: nat, id: Id)
    requires Course(pending, ran, requests) && k <= |ran| && id in pending[k]
    ensures id in pending[|ran|] || id in ran[k..]
    decreases |ran| - k
  {
    if k < |ran| {
      if ran[k] == id {
        assert ran[k..][0] == id;
      } else {
        NoneDropped(pending, ran, requests, k + 1, id);
        assert ran[k..] == [ran[k]] + ran[k + 1..];
      }
    }
  }

  lemma SpliceSlices(q: seq<Id>, from: nat, at: nat, id: Id)
    requires from <= at <= |q|
    ensures q[from..] == q[from..at] + q[at..]
    ensures var q' := q[..at] + [id] + q[at..];
            q'[from..] == q[from..at] + ([id] + q[at..]) && q'[..from] == q[..from]
  {
  }

  /** Where the queue from `from` on is in order, so it is with the id put in its place. */
  lemma SplicedIn(q: seq<Id>, from: nat, at: nat, id: Id)
    requires from <= at <= |q| && Increasing(q[from..])
    requires at > from ==> q[at - 1] < id
    requires at < |q| ==> id < q[at]
    ensures var q' := q[..at] + [id] + q[at..];
            q'[..from] == q[..from] && Increasing(q'[from..]) && Elements(q'[from..]) == Elements(q[from..]) + {id}
  {
    hide Elements, Increasing;
    var left, right := q[from..at], q[at..];
    SpliceSlices(q, from, at, id);
    ElementsOne(id);
    IncreasingParts(left, right);
    IncreasingJoin([id], right);
    IncreasingJoin(left, [id] + right);
    ElementsJoin(left, [id] + right);
    ElementsJoin([id], right);
    ElementsJoin(left, right);
  }

  lemma NotThere(q: seq<Id>, from: nat, at: nat, id: Id)
    requires from <= at < |q| && id !in q[from..]
    ensures q[at] != id
  {
    assert q[from..][at - from] == q[at];
  }

  /** The first of an ordered part is its least, and the rest is in order. */
  lemma HeadIsLeast(q: seq<Id>, from: nat)
    requires from < |q| && Increasing(q[from..])
    ensures q[from] in Elements(q[from..]) && forall id | id in Elements(q[from..]) :: q[from] <= id
    ensures Increasing(q[from + 1..]) && Elements(q[from + 1..]) == Elements(q[from..]) - {q[from]}
  {
    var head, tail := q[from], q[from + 1..];
    assert q[from..] == [head] + tail;
    IncreasingParts([head], tail);
    ElementsJoin([head], tail);
    ElementsOne(head);
    assert forall i | 0 <= i < |tail| :: tail[i] == q[from..][i + 1] && q[from..][0] < tail[i];
  }

  lemma CourseGrows(pending: seq<set<Id>>, ran: seq<Id>, requests: seq<seq<Id>>, id: Id, next: set<Id>)
    requires Course(pending, ran, requests)
    requires id in pending[|ran|] && forall other | other in pending[|ran|] :: id <= other
    requires next == pending[|ran|] - {id} + Elements(Requested(requests, |ran|))
    ensures Course(pending + [next], ran + [id], requests)
    ensures (pending + [next])[|ran| + 1] == next && (pending + [next])[0] == pending[0]
  {
  }

  lemma {:induction false} SelfRequestsGrow(ran: seq<Id>, last: Id, requests: seq<seq<Id>>, id: Id, n: nat)
    requires n <= |ran|
    ensures SelfRequests(ran + [last], requests, id, n) == SelfRequests(ran, requests, id, n)
  {
    if n > 0 {
      SelfRequestsGrow(ran, last, requests, id, n - 1);
    }
  }

  /** What `circular` counts. */
  ghost predicate Counts(circular: map<Id, nat>, ran: seq<Id>, requests: seq<seq<Id>>) {
    forall id :: SelfRequests(ran, requests, id, |ran|) == if id in circular then circular[id] else 0
  }

  ghost predicate WithinLimit(ran: seq<Id>, requests: seq<seq<Id>>, end: nat)
    requires end <= |ran|
  {
    forall n, id | 0 <= n <= end :: SelfRequests(ran, requests, id, n) <= MAX_UPDATE_COUNT
  }

  lemma CountsGrow(circular: map<Id, nat>, ran: seq<Id>, requests: seq<seq<Id>>, id: Id)
    requires Counts(circular, ran, requests) && WithinLimit(ran, requests, |ran|)
    ensures var again := id in Requested(requests, |ran|);
            var circular' := if again then circular[id := (if id in circular then circular[id] else 0) + 1] else circular;
            Counts(circular', ran + [id], requests) && WithinLimit(ran + [id], requests, |ran|) &&
            (!again || circular'[id] <= MAX_UPDATE_COUNT ==> WithinLimit(ran + [id], requests, |ran| + 1))
    ensures SelfRequests(ran + [id], requests, id, |ran| + 1) ==
            (if id in circular then circular[id] else 0) + (if id in Requested(requests, |ran|) then 1 else 0)
    ensures id in circular ==> circular[id] <= MAX_UPDATE_COUNT
  {
    forall x, n | 0 <= n <= |ran| ensures SelfRequests(ran + [id], requests, x, n) == SelfRequests(ran, requests, x, n) {
      SelfRequestsGrow(ran, id, requests, x, n);
    }
    forall x ensures SelfRequests(ran + [id], requests, x, |ran| + 1)
                  == SelfRequests(ran, requests, x, |ran|) + if x == id && id in Requested(requests, |ran|) then 1 else 0 {
      assert (ran + [id])[|ran|] == id;
    }
  }

  lemma FlushBegins(has: set<Id>, requests: seq<seq<Id>>)
    ensures Course([has], [], requests) && Counts(map[], [], requests) && WithinLimit([], requests, 0)
  {
  }

  lemma NotFlagged(queue: seq<Id>, id: Id)
    requires id !in Elements(queue)
    ensures id !in queue
  {
  }

  class Queue {
    var queue: seq<Id>
    var has: set<Id>
    var circular: map<Id, nat>
    var waiting: bool
    var flushing: bool
    var index: nat

    constructor ()
      ensures Idle() && queue == []
    {
      queue, has, circular, waiting, flushing, index := [], {}, map[], false, false, 0;
    }

    /** Between flushes. */
    ghost predicate Idle()
      reads this
    {
      !flushing && index == 0 && circular == map[] && waiting == (queue != []) &&
      Distinct(queue) && has == Elements(queue)
    }

    /** During a flush, from `from` on: the part that has not run is in order, and is what
        is flagged in `has`. */
    ghost predicate InFlush(from: nat)
      reads `queue, `has, `waiting, `flushing
    {
      flushing && waiting && from <= |queue| && Increasing(queue[from..]) && has == Elements(queue[from..])
    }

    /** `queueWatcher`; the result says whether it asks for a flush at the next tick. */
    method QueueWatcher(id: Id) returns (schedules: bool)
      requires Idle() || (InFlush(index + 1) && index < |queue|)
      modifies `queue, `has, `waiting
      ensures has == old(has) + {id}
      ensures id in old(has) ==> queue == old(queue) && waiting == old(waiting)
      ensures old(Idle()) ==> Idle() && schedules == (old(queue) == [])
      ensures old(Idle()) && id !in old(has) ==> queue == old(queue) + [id]
      ensures old(InFlush(index + 1)) ==> InFlush(index + 1) && !schedules
      ensures old(InFlush(index + 1)) ==> |queue| == |old(queue)| + if id in old(has) then 0 else 1
      ensures old(InFlush(index + 1)) ==> queue[..index + 1] == old(queue[..index + 1])
    {
      if id in has {
        return false;
      }
      if !flushing {
        Append(id);
      } else {
        Insert(id);
      }
      schedules := !waiting;
      waiting := true;
    }

    method Append(id: Id)
      requires Idle() && id !in has
      modifies `queue, `has
      ensures queue == old(queue) + [id] && has == old(has) + {id}
      ensures Distinct(queue) && has == Elements(queue)
    {
      has := has + {id};
      queue := queue + [id];
    }

    method Insert(id: Id)
      requires InFlush(index + 1) && index < |queue| && id !in has
      modifies `queue, `has
      ensures InFlush(index + 1) && has == old(has) + {id}
      ensures |queue| == |old(queue)| + 1 && queue[..index + 1] == old(queue[..index + 1])
    {
      NotFlagged(queue[index + 1..], id);
      hide Increasing, Elements;
      has := has + {id};
      Splice(id);
    }

    /** The insertion by id, from the end down to the part that has run. */
    method Splice(id: Id)
      requires index < |queue| && Increasing(queue[index + 1..]) && id !in queue[index + 1..]
      modifies `queue
      ensures |queue| == |old(queue)| + 1 && queue[..index + 1] == old(queue[..index + 1])
      ensures Increasing(queue[index + 1..]) && Elements(queue[index + 1..]) == old(Elements(queue[index + 1..])) + {id}
    {
      hide Increasing, Elements;
      var i := |queue| - 1;
      while i > index && queue[i] > id
        invariant index <= i < |queue|
        invariant forall k | i < k < |queue| :: queue[k] > id
      {
        i := i - 1;
      }
      if i > index {
        NotThere(queue, index + 1, i, id);
      }
      SplicedIn(queue, index + 1, i + 1, id);
      queue := queue[..i + 1] + [id] + queue[i + 1..];
    }
  
    /** `flushSchedulerQueue`, for a flush in which run `k` queues `requests[k]`, and later
        runs nothing. It ends with nothing pending, or stops because a watcher has queued
        itself for the 101st time; what was pending then is dropped. */
    method Flush(requests: seq<seq<Id>>) returns (ran: seq<Id>, pending: seq<set<Id>>, stopped: bool)
      requires Idle()
      modifies this
      ensures Idle() && queue == []
      ensures Course(pending, ran, requests) && pending[0] == old(has)
      ensures !stopped ==> pending[|ran|] == {} && WithinLimit(ran, requests, |ran|)
      ensures stopped ==> ran != [] && WithinLimit(ran, requests, |ran| - 1)
      ensures stopped ==> SelfRequests(ran, requests, ran[|ran| - 1], |ran|) == 101
    {
      hide Course, Counts, WithinLimit, SelfRequests, Increasing, Elements, Idle, InFlush;
      StartFlush();
      ran, pending, stopped := [], [has], false;
      FlushBegins(has, requests);
      while index < |queue|
        invariant |ran| == index <= |queue| && |pending| == |ran| + 1 && InFlush(index)
        invariant Course(pending, ran, requests) && pending[0] == old(has) && pending[|ran|] == has
        invariant Counts(circular, ran, requests) && WithinLimit(ran, requests, |ran|)
        decreases if index < |requests| then |requests| - index else 0, |queue| - index
      {
        var id, again := RunNext(Requested(requests, index));
        CountsGrow(circular, ran, requests, id);
        CourseGrows(pending, ran, requests, id, has);
        ran, pending := ran + [id], pending + [has];
        if again {
          circular := circular[id := (if id in circular then circular[id] else 0) + 1];
          if circular[id] > MAX_UPDATE_COUNT {
            stopped := true;
            break;
          }
        }
        index := index + 1;
      }
      if !stopped {
        NothingLeft();
      }
      ResetSchedulerState();
    }

    /** The flush marks itself and sorts the queue. */
    method StartFlush()
      requires Idle()
      modifies `queue, `flushing, `waiting, `index
      ensures InFlush(0) && index == 0 && circular == map[]
    {
      SortedSorts(queue);
      flushing := true;
      waiting := true;
      queue := Sorted(queue);
      index := 0;
    }

    lemma NothingLeft()
      requires InFlush(index) && index == |queue|
      ensures has == {}
    {
    }

    /** One turn of the flush: the watcher at `index` is unflagged and runs. */
    method RunNext(requested: seq<Id>) returns (id: Id, again: bool)
      requires InFlush(index) && index < |queue|
      modifies `queue, `has, `waiting
      ensures InFlush(index + 1) && index < |queue| && (requested == [] ==> |queue| == |old(queue)|)
      ensures id in old(has) && (forall other | other in old(has) :: id <= other)
      ensures has == old(has) - {id} + Elements(requested) && again == (id in requested)
    {
      id := queue[index];
      HeadIsLeast(queue, index);
      hide Increasing, Elements;
      has := has - {id};
      RunWatcher(requested);
      InElements(requested, id);
      again := id in has;
    }

    /** `watcher.run()`, as far as the queue sees it: some watchers are queued, one after
        the other. */
    method RunWatcher(requested: seq<Id>)
      requires InFlush(index + 1) && index < |queue|
      modifies `queue, `has, `waiting
      ensures InFlush(index + 1) && index < |queue|
      ensures has == old(has) + Elements(requested)
      ensures requested == [] ==> queue == old(queue)
      decreases |requested|
    {
      hide Increasing, Elements, Idle, InFlush;
      FirstElement(requested);
      if requested != [] {
        var schedules := QueueWatcher(requested[0]);
        RunWatcher(requested[1..]);
      }
    }

    method ResetSchedulerState()
      modifies this
      ensures Idle() && queue == []
    {
      index := 0;
      queue, has, circular := [], {}, map[];
      waiting, flushing := false, false;
    }
  }
}

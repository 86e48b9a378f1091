/** One shop in MySQL, in Redis and in the Caffeine caches of all instances: reads that fill
    the caches on the way back, invalidations, and every interleaving of them. */
module ShopCache {
  datatype Option<+T> = None | Some(value: T)

  type Shop = int
  type Instance = nat
  type Reader = nat

  /** The Redis entry: a blank text stands for a shop that does not exist, and a text that
      does not parse is corrupt. */
  datatype Entry = Absent | Blank | Corrupt | Holds(shop: Shop)

  /** How far a read is that missed, or could not use, its local cache. */
  datatype Phase = Started | FoundCorrupt | AsksDb | FromDb(found: Option<Shop>) | Loaded(shop: Shop)

  datatype Read = Read(at: Instance, phase: Phase)

  /** `instances` counts the application instances; `inbox` the broadcasts that each has
      still to process. */
  datatype State = State(
    instances: nat,
    db: Option<Shop>,
    redis: Entry,
    local: map<Instance, Shop>,
    underway: map<Reader, Read>,
    inbox: map<Instance, nat>)

  datatype Step =
    | Commit(shop: Shop)
    | StartRead(reader: Reader, at: Instance, localFails: bool)
    | AskRedis(reader: Reader, fails: bool)
    | DropCorrupt(reader: Reader, ok: bool)
    | AskDb(reader: Reader)
    | FillRedis(reader: Reader, ok: bool)
    | FillLocal(reader: Reader, ok: bool)
    | DeleteRedis(ok: bool)
    | CleanLocal(at: Instance, ok: bool)
    | Broadcast
    | Deliver(at: Instance, redisOk: bool, localOk: bool, parked: bool)
    | Expire
    | Evict(at: Instance)

  predicate Reading(s: State, reader: Reader, phase: Phase) {
    reader in s.underway && s.underway[reader].phase == phase
  }

  predicate Possible(s: State, step: Step) {
    match step
    case Commit(_) => s.db.Some?
    case StartRead(reader, at, localFails) => reader !in s.underway && at < s.instances && (at !in s.local || localFails)
    case AskRedis(reader, _) => Reading(s, reader, Started)
    case DropCorrupt(reader, _) => Reading(s, reader, FoundCorrupt)
    case AskDb(reader) => Reading(s, reader, AsksDb)
    case FillRedis(reader, _) => reader in s.underway && s.underway[reader].phase.FromDb?
    case FillLocal(reader, _) => reader in s.underway && s.underway[reader].phase.Loaded?
    case CleanLocal(at, _) => at < s.instances
    case Deliver(at, _, _, _) => at < s.instances && at in s.inbox && s.inbox[at] > 0
    case Evict(at) => at < s.instances
    case _ => true
  }

  function Moved(s: State, reader: Reader, phase: Phase): State
    requires reader in s.underway
  {
    s.(underway := s.underway[reader := s.underway[reader].(phase := phase)])
  }

  function Next(s: State, step: Step): State
    requires Possible(s, step)
  {
    match step
    case Commit(shop) => s.(db := Some(shop))
    case StartRead(reader, at, _) => s.(underway := s.underway[reader := Read(at, Started)])
    case AskRedis(reader, fails) =>
      if fails then Moved(s, reader, AsksDb)
      else (match s.redis
            case Holds(shop) => Moved(s, reader, Loaded(shop))
            case Blank => s.(underway := s.underway - {reader})
            case Corrupt => Moved(s, reader, FoundCorrupt)
            case Absent => Moved(s, reader, AsksDb))
    case DropCorrupt(reader, ok) =>
      var asks := Moved(s, reader, AsksDb);
      if ok then asks.(redis := Absent) else asks
    case AskDb(reader) => Moved(s, reader, FromDb(s.db))
    case FillRedis(reader, ok) =>
      var found := s.underway[reader].phase.found;
      var filled := if ok then s.(redis := if found.Some? then Holds(found.value) else Blank) else s;
      if found.Some? then Moved(filled, reader, Loaded(found.value)) else filled.(underway := s.underway - {reader})
    case FillLocal(reader, ok) =>
      var r := s.underway[reader];
      var done := s.(underway := s.underway - {reader});
      if ok then done.(local := s.local[r.at := r.phase.shop]) else done
    case DeleteRedis(ok) => if ok then s.(redis := Absent) else s
    case CleanLocal(at, ok) => if ok then s.(local := s.local - {at}) else s
    case Broadcast =>
      s.(inbox := map at: Instance | 0 <= at < s.instances :: (if at in s.inbox then s.inbox[at] else 0) + 1)
    case Deliver(at, redisOk, localOk, parked) =>
      s.(redis := if redisOk then Absent else s.redis, local := if localOk then s.local - {at} else s.local,
         inbox := if (redisOk && localOk) || parked then s.inbox[at := s.inbox[at] - 1] else s.inbox)
    case Expire => s.(redis := Absent)
    case Evict(at) => s.(local := s.local - {at})
  }

  predicate PossibleRun(s: State, steps: seq<Step>)
    decreases |steps|
  {
    steps == [] || (Possible(s, steps[0]) && PossibleRun(Next(s, steps[0]), steps[1..]))
  }

  function After(s: State, steps: seq<Step>): State
    requires PossibleRun(s, steps)
    decreases |steps|
  {
    if steps == [] then s else After(Next(s, steps[0]), steps[1..])
  }

  // ------------------------------------------------------------ coherence

  /** Redis holds nothing or what is committed. */
  predicate RedisCoherent(s: State) {
    match s.redis
    case Absent => true
    case Blank => s.db.None?
    case Corrupt => false
    case Holds(shop) => s.db == Some(shop)
  }

  predicate LocalCoherent(s: State, at: Instance) {
    at in s.local ==> s.db == Some(s.local[at])
  }

  predicate Coherent(s: State) {
    RedisCoherent(s) && forall at | 0 <= at < s.instances :: LocalCoherent(s, at)
  }

  /** A read that carries no value yet, or the committed one. */
  predicate Fresh(s: State, r: Read) {
    match r.phase
    case FromDb(found) => found == s.db
    case Loaded(shop) => s.db == Some(shop)
    case _ => true
  }

  predicate FreshReads(s: State) {
    forall reader | reader in s.underway :: Fresh(s, s.underway[reader])
  }

  /** The instance's cache is cleaned in the run, by its own invalidation or by a delivery. */
  predicate Cleans(step: Step, at: Instance) {
    match step
    case CleanLocal(i, ok) => i == at && ok
    case Deliver(i, _, localOk, _) => i == at && localOk
    case _ => false
  }

  predicate CleanedIn(steps: seq<Step>, at: Instance) {
    exists step | step in steps :: Cleans(step, at)
  }

  predicate NoCommit(steps: seq<Step>) {
    forall step | step in steps :: !step.Commit?
  }

  ghost predicate Settling(s: State, cleaned: set<Instance>) {
    RedisCoherent(s) && FreshReads(s) && forall at | at in cleaned :: LocalCoherent(s, at)
  }

  lemma StepSettles(s: State, step: Step, cleaned: set<Instance>)
    requires Settling(s, cleaned) && Possible(s, step) && !step.Commit?
    ensures var s' := Next(s, step);
            Settling(s', cleaned) && s'.db == s.db && s'.instances == s.instances &&
            forall at | Cleans(step, at) :: LocalCoherent(s', at)
  {
  }

  lemma {:induction false} RunSettles(s: State, steps: seq<Step>, cleaned: set<Instance>)
    requires Settling(s, cleaned) && PossibleRun(s, steps) && NoCommit(steps)
    ensures var end := After(s, steps);
            Settling(end, cleaned) && end.instances == s.instances &&
            forall at | CleanedIn(steps, at) :: LocalCoherent(end, at)
    decreases |steps|
  {
    if steps != [] {
      var s1 := Next(s, steps[0]);
      StepSettles(s, steps[0], cleaned);
      RunSettles(s1, steps[1..], cleaned);
      forall at | CleanedIn(steps, at) ensures LocalCoherent(After(s, steps), at) {
        if Cleans(steps[0], at) {
          assert Settling(s1, cleaned + {at});
          RunSettles(s1, steps[1..], cleaned + {at});
          assert at in cleaned + {at};
        } else {
          var step :| step in steps && Cleans(step, at);
          assert step in steps[1..];
          assert CleanedIn(steps[1..], at);
        }
      }
    }
  }

  /** After the Redis deletion, in every run without a commit that cleans every instance,
      the caches end up coherent. */
  ghost predicate Restores(s: State) {
    forall rest: seq<Step> |
      PossibleRun(s, [DeleteRedis(true)] + rest) && NoCommit(rest) &&
      forall at | 0 <= at < s.instances :: CleanedIn(rest, at)
    :: Coherent(After(s, [DeleteRedis(true)] + rest))
  }

  lemma FreshRestores(s: State)
    requires FreshReads(s)
    ensures Restores(s)
  {
    forall rest: seq<Step> |
      PossibleRun(s, [DeleteRedis(true)] + rest) && NoCommit(rest) &&
      forall at | 0 <= at < s.instances :: CleanedIn(rest, at)
      ensures Coherent(After(s, [DeleteRedis(true)] + rest))
    {
      var steps := [DeleteRedis(true)] + rest;
      assert steps[1..] == rest;
      RunSettles(Next(s, DeleteRedis(true)), rest, {});
    }
  }

  // ------------------------------------------------------------ a read that nobody disturbs

  /** Which calls of a read fail. */
  datatype Faults = Faults(localRead: bool, redisRead: bool, redisDelete: bool, redisFill: bool, localFill: bool)

  /** The steps after the local miss, for what Redis answers. */
  function Answered(s: State, reader: Reader, faults: Faults): seq<Step> {
    if !faults.redisRead && s.redis.Blank? then []
    else
      (if !faults.redisRead && s.redis.Holds? then []
       else (if !faults.redisRead && s.redis.Corrupt? then [DropCorrupt(reader, !faults.redisDelete)] else [])
            + [AskDb(reader), FillRedis(reader, !faults.redisFill)])
      + (if (faults.redisRead || !s.redis.Holds?) && s.db.None? then [] else [FillLocal(reader, !faults.localFill)])
  }

  /** The steps of a whole read. */
  function ReadSteps(s: State, reader: Reader, at: Instance, faults: Faults): seq<Step> {
    if !faults.localRead && at in s.local then []
    else [StartRead(reader, at, faults.localRead), AskRedis(reader, faults.redisRead)] + Answered(s, reader, faults)
  }

  /** The value that a read finds behind the local cache. */
  function Found(redis: Entry, db: Option<Shop>, faults: Faults): Option<Shop> {
    if !faults.redisRead && redis.Holds? then Some(redis.shop)
    else if !faults.redisRead && redis.Blank? then None
    else db
  }

  /** The Redis entry it leaves. */
  function RedisAfter(redis: Entry, db: Option<Shop>, faults: Faults): Entry {
    if !faults.redisRead && (redis.Holds? || redis.Blank?) then redis
    else if !faults.redisFill then if db.Some? then Holds(db.value) else Blank
    else if !faults.redisRead && redis.Corrupt? && !faults.redisDelete then Absent
    else redis
  }

  function LocalAfter(local: map<Instance, Shop>, at: Instance, found: Option<Shop>, faults: Faults): map<Instance, Shop> {
    if found.Some? && !faults.localFill then local[at := found.value] else local
  }

  /** What it leaves in the caches. */
  function ReadEffect(s: State, at: Instance, faults: Faults): State {
    if !faults.localRead && at in s.local then s
    else
      s.(redis := RedisAfter(s.redis, s.db, faults),
         local := LocalAfter(s.local, at, Found(s.redis, s.db, faults), faults))
  }

  lemma OneStep(s: State, step: Step, rest: seq<Step>)
    requires Possible(s, step) && PossibleRun(Next(s, step), rest)
    ensures PossibleRun(s, [step] + rest) && After(s, [step] + rest) == After(Next(s, step), rest)
  {
    assert ([step] + rest)[1..] == rest;
  }

  lemma LoadedRead(s: State, reader: Reader, ok: bool)
    requires reader in s.underway && s.underway[reader].phase.Loaded?
    ensures PossibleRun(s, [FillLocal(reader, ok)])
    ensures After(s, [FillLocal(reader, ok)]) == Next(s, FillLocal(reader, ok))
  {
    OneStep(s, FillLocal(reader, ok), []);
    assert [FillLocal(reader, ok)] + [] == [FillLocal(reader, ok)];
  }

  lemma AskingRead(s: State, reader: Reader, faults: Faults)
    requires Reading(s, reader, AsksDb)
    ensures var last := if s.db.None? then [] else [FillLocal(reader, !faults.localFill)];
            var steps := [AskDb(reader), FillRedis(reader, !faults.redisFill)] + last;
            PossibleRun(s, steps) &&
            After(s, steps) ==
              s.(underway := s.underway - {reader},
                 redis := if faults.redisFill then s.redis else if s.db.Some? then Holds(s.db.value) else Blank,
                 local := LocalAfter(s.local, s.underway[reader].at, s.db, faults))
  {
    var last := if s.db.None? then [] else [FillLocal(reader, !faults.localFill)];
    var s1 := Next(s, AskDb(reader));
    var s2 := Next(s1, FillRedis(reader, !faults.redisFill));
    if s.db.Some? {
      LoadedRead(s2, reader, !faults.localFill);
    }
    OneStep(s1, FillRedis(reader, !faults.redisFill), last);
    OneStep(s, AskDb(reader), [FillRedis(reader, !faults.redisFill)] + last);
    assert [AskDb(reader)] + ([FillRedis(reader, !faults.redisFill)] + last)
        == [AskDb(reader), FillRedis(reader, !faults.redisFill)] + last;
  }

  /** What is left of the state when the read is over. */
  ghost predicate ReadEnds(s: State, end: State, reader: Reader, faults: Faults)
    requires reader in s.underway
  {
    end == s.(underway := s.underway - {reader}, redis := RedisAfter(s.redis, s.db, faults),
              local := LocalAfter(s.local, s.underway[reader].at, Found(s.redis, s.db, faults), faults))
  }

  lemma StartedRead(s: State, reader: Reader, faults: Faults)
    requires Reading(s, reader, Started)
    ensures var steps := [AskRedis(reader, faults.redisRead)] + Answered(s, reader, faults);
            PossibleRun(s, steps) && ReadEnds(s, After(s, steps), reader, faults)
  {
    var s1 := Next(s, AskRedis(reader, faults.redisRead));
    var answered := Answered(s, reader, faults);
    if !faults.redisRead && s.redis.Holds? {
      LoadedRead(s1, reader, !faults.localFill);
      assert answered == [FillLocal(reader, !faults.localFill)];
    } else if !faults.redisRead && s.redis.Corrupt? {
      CorruptRead(s1, reader, faults);
    } else if faults.redisRead || s.redis.Absent? {
      AskingRead(s1, reader, faults);
    }
    OneStep(s, AskRedis(reader, faults.redisRead), answered);
  }

  lemma CorruptRead(s: State, reader: Reader, faults: Faults)
    requires Reading(s, reader, FoundCorrupt) && !faults.redisRead && s.redis.Corrupt?
    ensures PossibleRun(s, Answered(s, reader, faults)) && ReadEnds(s, After(s, Answered(s, reader, faults)), reader, faults)
  {
    var s1 := Next(s, DropCorrupt(reader, !faults.redisDelete));
    var answered := Answered(s, reader, faults);
    AskingRead(s1, reader, faults);
    OneStep(s, DropCorrupt(reader, !faults.redisDelete), answered[1..]);
    assert [DropCorrupt(reader, !faults.redisDelete)] + answered[1..] == answered;
  }

  /** The steps of an undisturbed read have that effect. */
  lemma UndisturbedRead(s: State, reader: Reader, at: Instance, faults: Faults)
    requires reader !in s.underway && at < s.instances
    ensures PossibleRun(s, ReadSteps(s, reader, at, faults))
    ensures After(s, ReadSteps(s, reader, at, faults)) == ReadEffect(s, at, faults)
  {
    hide RedisAfter, LocalAfter, Found;
    if faults.localRead || at !in s.local {
      var start := StartRead(reader, at, faults.localRead);
      var s1 := Next(s, start);
      var answered := Answered(s, reader, faults);
      StartedRead(s1, reader, faults);
      assert s1.underway - {reader} == s.underway;
      OneStep(s, start, [AskRedis(reader, faults.redisRead)] + answered);
      assert ReadSteps(s, reader, at, faults) == [start] + ([AskRedis(reader, faults.redisRead)] + answered);
    }
  }

  // ------------------------------------------------------------ and a stale read breaks it

  lemma {:induction false} RunConcat(s: State, first: seq<Step>, second: seq<Step>)
    requires PossibleRun(s, first) && PossibleRun(After(s, first), second)
    ensures PossibleRun(s, first + second) && After(s, first + second) == After(After(s, first), second)
    decreases |first|
  {
    if first == [] {
      assert first + second == second;
    } else {
      RunConcat(Next(s, first[0]), first[1..], second);
      assert (first + second)[1..] == first[1..] + second;
    }
  }

  /** The instances from `k` on clean their caches. */
  function Cleaning(s: State, k: nat): seq<Step>
    requires k <= s.instances
    decreases s.instances - k
  {
    if k == s.instances then [] else [CleanLocal(k, true)] + Cleaning(s, k + 1)
  }

  lemma {:induction false} AfterCleaning(s: State, k: nat)
    requires k <= s.instances
    ensures var steps := Cleaning(s, k);
            PossibleRun(s, steps) && NoCommit(steps) && (forall at | k <= at < s.instances :: CleanLocal(at, true) in steps) &&
            var end := After(s, steps);
            end == s.(local := end.local)
    decreases s.instances - k
  {
    if k < s.instances {
      var s1 := Next(s, CleanLocal(k, true));
      AfterCleaning(s1, k + 1);
      SameCleaning(s, s1, k + 1);
      OneStep(s, CleanLocal(k, true), Cleaning(s, k + 1));
    }
  }

  lemma {:induction false} SameCleaning(s: State, s': State, k: nat)
    requires k <= s.instances == s'.instances
    ensures Cleaning(s, k) == Cleaning(s', k)
    decreases s.instances - k
  {
    if k < s.instances {
      SameCleaning(s, s', k + 1);
    }
  }

  /** The fill that a read does next. */
  function NextFill(s: State, reader: Reader): Step
    requires reader in s.underway
  {
    if s.underway[reader].phase.FromDb? then FillRedis(reader, true) else FillLocal(reader, true)
  }

  /** A read that carries something else than the committed value leaves it behind. */
  lemma StaleFill(s: State, reader: Reader)
    requires reader in s.underway && s.underway[reader].at < s.instances && !Fresh(s, s.underway[reader])
    ensures Possible(s, NextFill(s, reader)) && !Coherent(Next(s, NextFill(s, reader)))
  {
    var fill := NextFill(s, reader);
    if fill.FillLocal? {
      assert !LocalCoherent(Next(s, fill), s.underway[reader].at);
    }
  }

  lemma CleaningCleans(s: State, fill: Step)
    requires !fill.Commit? && NoCommit(Cleaning(s, 0))
    requires forall at | 0 <= at < s.instances :: CleanLocal(at, true) in Cleaning(s, 0)
    ensures NoCommit(Cleaning(s, 0) + [fill]) && forall at | 0 <= at < s.instances :: CleanedIn(Cleaning(s, 0) + [fill], at)
  {
    forall at | 0 <= at < s.instances ensures CleanedIn(Cleaning(s, 0) + [fill], at) {
      assert CleanLocal(at, true) in Cleaning(s, 0) + [fill] && Cleans(CleanLocal(at, true), at);
    }
  }

  /** A read that carries something else than the committed value finishes its next fill
      after every cache was cleaned. */
  lemma StaleReadBreaks(s: State, reader: Reader)
    requires reader in s.underway && s.underway[reader].at < s.instances && !Fresh(s, s.underway[reader])
    ensures !Restores(s)
  {
    var s1 := Next(s, DeleteRedis(true));
    AfterCleaning(s1, 0);
    var s2 := After(s1, Cleaning(s1, 0));
    var fill := NextFill(s2, reader);
    assert Fresh(s2, s.underway[reader]) <==> Fresh(s, s.underway[reader]);
    StaleFill(s2, reader);
    CleaningCleans(s1, fill);
    hide Coherent, CleanedIn, NoCommit, Fresh, Next;
    OneStep(s2, fill, []);
    assert [fill] + [] == [fill];
    RunConcat(s1, Cleaning(s1, 0), [fill]);
    OneStep(s, DeleteRedis(true), Cleaning(s1, 0) + [fill]);
  }

  /** The second deletion restores coherence, whatever runs besides, exactly when no read
      carries a value other than the committed one past it. */
  lemma RestoresExactlyWhenFresh(s: State)
    requires forall reader | reader in s.underway :: s.underway[reader].at < s.instances
    ensures Restores(s) <==> FreshReads(s)
  {
    if FreshReads(s) {
      FreshRestores(s);
    } else {
      var reader :| reader in s.underway && !Fresh(s, s.underway[reader]);
      StaleReadBreaks(s, reader);
    }
  }

  /** In particular it does when no read is under way at the deletion. */
  lemma QuietDeletionRestores(s: State, rest: seq<Step>)
    requires s.underway == map[] && PossibleRun(s, [DeleteRedis(true)] + rest) && NoCommit(rest)
    requires forall at | 0 <= at < s.instances :: CleanedIn(rest, at)
    ensures Coherent(After(s, [DeleteRedis(true)] + rest))
  {
    FreshRestores(s);
  }

  /** No delivery was given up for the parking queue. */
  predicate NoneParked(steps: seq<Step>) {
    forall step | step in steps :: step.Deliver? ==> !step.parked
  }

  predicate Waiting(s: State, at: Instance) {
    at in s.inbox && s.inbox[at] > 0
  }

  /** An instance that had a broadcast to process and has none left has cleaned its cache. */
  lemma {:induction false} ProcessedIsCleaned(s: State, steps: seq<Step>, at: Instance)
    requires PossibleRun(s, steps) && NoneParked(steps) && Waiting(s, at) && !Waiting(After(s, steps), at) && at < s.instances
    ensures CleanedIn(steps, at)
    decreases |steps|
  {
    if steps != [] {
      if Cleans(steps[0], at) {
        assert CleanedIn(steps, at);
      } else {
        assert Waiting(Next(s, steps[0]), at) by {
          assert steps[0] in steps;
        }
        ProcessedIsCleaned(Next(s, steps[0]), steps[1..], at);
        var step :| step in steps[1..] && Cleans(step, at);
        assert step in steps;
      }
    }
  }

  lemma {:induction false} RunKeepsInstances(s: State, steps: seq<Step>)
    requires PossibleRun(s, steps)
    ensures After(s, steps).instances == s.instances
    decreases |steps|
  {
    if steps != [] {
      RunKeepsInstances(Next(s, steps[0]), steps[1..]);
    }
  }

  lemma {:induction false} SplitRun(s: State, first: seq<Step>, second: seq<Step>)
    requires PossibleRun(s, first + second)
    ensures PossibleRun(s, first) && PossibleRun(After(s, first), second)
    ensures After(s, first + second) == After(After(s, first), second)
    decreases |first|
  {
    if first == [] {
      assert first + second == second;
    } else {
      assert (first + second)[1..] == first[1..] + second && (first + second)[0] == first[0];
      SplitRun(Next(s, first[0]), first[1..], second);
    }
  }

  /** A broadcast that every instance has processed has cleaned every instance. */
  lemma BroadcastCleans(s: State, after: seq<Step>)
    requires PossibleRun(s, [Broadcast] + after) && NoneParked(after)
    requires forall at | 0 <= at < s.instances :: !Waiting(After(s, [Broadcast] + after), at)
    ensures forall at | 0 <= at < s.instances :: CleanedIn(after, at)
  {
    var s1, steps := Next(s, Broadcast), [Broadcast] + after;
    assert steps[0] == Broadcast && steps[1..] == after;
    assert PossibleRun(s1, after) && After(s, steps) == After(s1, after);
    hide PossibleRun, After, CleanedIn, NoneParked;
    forall at | 0 <= at < s.instances ensures CleanedIn(after, at) {
      ProcessedIsCleaned(s1, after, at);
    }
  }

  lemma CleanedLater(before: seq<Step>, after: seq<Step>, at: Instance)
    requires CleanedIn(after, at)
    ensures CleanedIn(before + after, at)
  {
    var step :| step in after && Cleans(step, at);
    assert step in before + after;
  }

  /** The double delete: from the successful deletion in Redis on, with only fresh reads under
      way and no commit, when the broadcast that follows has been processed everywhere, Redis
      and every Caffeine cache hold nothing or the committed value. */
  lemma ProcessedBroadcastRestores(s: State, before: seq<Step>, after: seq<Step>)
    requires FreshReads(s) && NoCommit(before) && NoCommit(after) && NoneParked(after)
    requires PossibleRun(s, [DeleteRedis(true)] + (before + ([Broadcast] + after)))
    requires var end := After(s, [DeleteRedis(true)] + (before + ([Broadcast] + after)));
             forall at | 0 <= at < s.instances :: !Waiting(end, at)
    ensures Coherent(After(s, [DeleteRedis(true)] + (before + ([Broadcast] + after))))
  {
    var first, second := [DeleteRedis(true)] + before, [Broadcast] + after;
    assert first + second == [DeleteRedis(true)] + (before + second);
    SplitRun(s, first, second);
    RunKeepsInstances(s, first);
    BroadcastCleans(After(s, first), after);
    forall at | 0 <= at < s.instances ensures CleanedIn(before + second, at) {
      CleanedLater([Broadcast], after, at);
      CleanedLater(before, second, at);
    }
    FreshRestores(s);
    hide PossibleRun, After, Coherent, CleanedIn, Waiting;
    assert NoCommit(before + second);
  }
}

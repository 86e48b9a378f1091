/** Reading and invalidating one shop as the services do it, each call on its own: what a
    read returns and leaves, and what an invalidation that reports success has done. */
module ShopCacheService {
  import opened ShopCache

  class Cluster {
    const instances: nat
    var db: Option<Shop>
    var redis: Entry
    var local: map<Instance, Shop>
    var inbox: map<Instance, nat>

    constructor (instances: nat, db: Option<Shop>)
      ensures Coherent(Quiet()) && this.instances == instances && this.db == db
    {
      this.instances, this.db, redis, local, inbox := instances, db, Absent, map[], map[];
    }

    /** The state when no read is under way. */
    ghost function Quiet(): State
      reads this
    {
      State(instances, db, redis, local, map[], inbox)
    }

    /** What is found behind the local cache: what Redis answers if it answers with a shop or with
        none, else what is committed, which Redis then holds unless the fill fails; a corrupt
        text is dropped unless that fails. */
    predicate Finds(before: Entry, faults: Faults, shop: Option<Shop>, after: Entry)
      reads this
    {
      if !faults.redisRead && before.Holds? then shop == Some(before.shop) && after == before
      else if !faults.redisRead && before.Blank? then shop == None && after == before
      else
        shop == db &&
        after == if !faults.redisFill then (if db.Some? then Holds(db.value) else Blank)
                 else if !faults.redisRead && before.Corrupt? && !faults.redisDelete then Absent else before
    }

    /** `queryRedisAndDb` */
    method QueryRedisAndDb(faults: Faults) returns (shop: Option<Shop>)
      modifies `redis
      ensures RedisCoherent(old(Quiet())) ==> shop == db && RedisCoherent(Quiet())
      ensures shop == Found(old(redis), db, faults) && redis == RedisAfter(old(redis), db, faults)
      ensures Finds(old(redis), faults, shop, redis)
    {
      if !faults.redisRead {
        match redis {
          case Holds(cached) => return Some(cached);
          case Blank => return None;
          case Corrupt =>
            if !faults.redisDelete {
              redis := Absent;
            }
          case Absent =>
        }
      }
      shop := db;
      if !faults.redisFill {
        redis := if shop.Some? then Holds(shop.value) else Blank;
      }
    }

    /** `queryShopById`: the local value if there is one, else what Redis or MySQL gives,
        which is also kept locally. From coherent caches it returns the committed value, even
        if caches fail on the way, and leaves them coherent. */
    method QueryShopById(at: Instance, faults: Faults) returns (shop: Option<Shop>)
      requires at < instances
      modifies `redis, `local
      ensures Coherent(old(Quiet())) ==> shop == db && Coherent(Quiet())
      ensures !faults.localRead && at in old(local) ==> shop == Some(old(local)[at]) && redis == old(redis) && local == old(local)
      ensures faults.localRead || at !in old(local) ==>
        Finds(old(redis), faults, shop, redis) &&
        local == if shop.Some? && !faults.localFill then old(local)[at := shop.value] else old(local)
      ensures Quiet() == ReadEffect(old(Quiet()), at, faults)
    {
      if !faults.localRead && at in local {
        assert Coherent(Quiet()) ==> LocalCoherent(Quiet(), at);
        return Some(local[at]);
      }
      ghost var before := Quiet();
      shop := QueryRedisAndDb(faults);
      if shop.Some? && !faults.localFill {
        local := local[at := shop.value];
      }
      if Coherent(before) {
        forall i | 0 <= i < instances ensures LocalCoherent(Quiet(), i) {
          assert LocalCoherent(before, i);
        }
      }
    }

    /** `invalidateShop`: three steps that are all tried, their failures collected. Only if
        there are none has everything been deleted and announced. */
    method InvalidateShop(at: Instance, redisOk: bool, localOk: bool, sendOk: bool) returns (failures: seq<string>)
      requires at < instances
      modifies `redis, `local, `inbox
      ensures |failures| == (if redisOk then 0 else 1) + (if localOk then 0 else 1) + (if sendOk then 0 else 1)
      ensures Quiet() == Invalidated(old(Quiet()), DeleteRedis(redisOk), CleanLocal(at, localOk), sendOk)
      ensures redis == (if redisOk then Absent else old(redis)) && local == (if localOk then old(local) - {at} else old(local))
      ensures forall i | 0 <= i < instances && sendOk ::
        i in inbox && inbox[i] == (if i in old(inbox) then old(inbox)[i] else 0) + 1
      ensures !sendOk ==> inbox == old(inbox)
      ensures failures == [] ==> redis == Absent && at !in local && forall i | 0 <= i < instances :: i in inbox && inbox[i] > 0
    {
      failures := [];
      if redisOk {
        redis := Absent;
      } else {
        failures := failures + ["Redis"];
      }
      if localOk {
        local := local - {at};
      } else {
        failures := failures + ["Caffeine"];
      }
      if sendOk {
        inbox := map i: Instance | 0 <= i < instances :: (if i in inbox then inbox[i] else 0) + 1;
      } else {
        failures := failures + ["broadcast"];
      }
    }

    ghost function Invalidated(s: State, first: Step, second: Step, sendOk: bool): State
      requires Possible(s, first) && Possible(Next(s, first), second)
    {
      var s2 := Next(Next(s, first), second);
      if sendOk then Next(s2, Broadcast) else s2
    }

    /** `onCacheInvalidate`: the message is done with only if both deletions succeed. */
    method OnCacheInvalidate(at: Instance, redisOk: bool, localOk: bool, parked: bool) returns (failures: seq<string>)
      requires Possible(Quiet(), Deliver(at, redisOk, localOk, parked))
      modifies `redis, `local, `inbox
      ensures Quiet() == Next(old(Quiet()), Deliver(at, redisOk, localOk, parked))
      ensures (failures == []) == (redisOk && localOk)
      ensures redis == (if redisOk then Absent else old(redis)) && local == (if localOk then old(local) - {at} else old(local))
      ensures inbox == if (redisOk && localOk) || parked then old(inbox)[at := old(inbox)[at] - 1] else old(inbox)
    {
      failures := [];
      if redisOk {
        redis := Absent;
      } else {
        failures := failures + ["Redis"];
      }
      if localOk {
        local := local - {at};
      } else {
        failures := failures + ["Caffeine"];
      }
      if failures == [] || parked {
        inbox := inbox[at := inbox[at] - 1];
      }
    }
  }
}

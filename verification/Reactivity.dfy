/** Dependency tracking and computed caching: `Dep`, `Watcher`, reactive
    properties and computed getters of `frontend/js/vue.js`. Watchers and deps are
    kept in tables indexed by their ids. */
module Reactivity {
  import opened Getters
  import opened Caching

  /** `remove(arr, item)`: the first occurrence goes. */
  function Removed(s: seq<nat>, x: nat): (r: seq<nat>)
    ensures x !in s ==> r == s
    ensures forall y :: y != x ==> (y in r <==> y in s)
  {
    if s == [] then []
    else if s[0] == x then s[1..]
    else [s[0]] + Removed(s[1..], x)
  }

  ghost predicate Once(s: seq<nat>) {
    forall i, j :: 0 <= i < j < |s| ==> s[i] != s[j]
  }

  lemma {:induction false} RemovedOnce(s: seq<nat>, x: nat)
    requires Once(s)
    ensures Once(Removed(s, x)) && x !in Removed(s, x)
  {
    if s != [] {
      assert forall y :: y in s[1..] ==> exists j :: 1 <= j < |s| && s[j] == y;
      assert s[0] !in s[1..];
      if s[0] != x {
        RemovedOnce(s[1..], x);
      }
    }
  }

  /** The fields of a `Watcher`; its id is its place in the table. */
  datatype Watcher = Watcher(active: bool, dirty: bool, value: int,
                             deps: seq<nat>, newDeps: seq<nat>, depIds: set<nat>, newDepIds: set<nat>)

  ghost predicate IdsOf(ds: seq<nat>, ids: set<nat>, n: nat) {
    Once(ds) && (forall k :: k in ids <==> k in ds) && (forall k :: k in ds ==> k < n)
  }

  /** Watcher `i`'s own lists agree with the subscriber lists of the deps. */
  ghost predicate Wired(w: Watcher, subs: seq<seq<nat>>, i: nat) {
    && IdsOf(w.deps, w.depIds, |subs|) && IdsOf(w.newDeps, w.newDepIds, |subs|)
    && (forall k :: 0 <= k < |subs| && i in subs[k] ==> k in w.depIds || k in w.newDepIds)
    && (forall k :: 0 <= k < |subs| && k in w.newDepIds && k !in w.depIds ==> i in subs[k])
    && (w.active ==> forall k :: 0 <= k < |subs| && k in w.depIds ==> i in subs[k])
  }

  /** The subscription index, while the watchers in `busy` are being evaluated. */
  ghost predicate Links(ws: seq<Watcher>, subs: seq<seq<nat>>, busy: set<nat>) {
    && (forall i :: 0 <= i < |ws| ==> Wired(ws[i], subs, i))
    && (forall k :: 0 <= k < |subs| ==> Once(subs[k]) && forall i :: i in subs[k] ==> i < |ws|)
    && (forall i :: 0 <= i < |ws| && i !in busy ==> ws[i].newDeps == [])
  }

  /** Only watcher `i` may have been subscribed or unsubscribed. */
  ghost predicate OnlyFor(subs: seq<seq<nat>>, subs': seq<seq<nat>>, i: nat) {
    && |subs'| == |subs|
    && (forall k :: 0 <= k < |subs| ==> forall x :: x != i ==> (x in subs'[k] <==> x in subs[k]))
  }

  lemma LinksOnlyFor(ws: seq<Watcher>, subs: seq<seq<nat>>, busy: set<nat>,
                     i: nat, w: Watcher, subs': seq<seq<nat>>, busy': set<nat>)
    requires Links(ws, subs, busy) && i < |ws| && OnlyFor(subs, subs', i)
    requires Wired(w, subs', i) && forall k :: 0 <= k < |subs'| ==> Once(subs'[k])
    requires busy <= busy' + {i}
    requires i !in busy' ==> w.newDeps == []
    ensures Links(ws[i := w], subs', busy')
  {
    var ws' := ws[i := w];
    forall j | 0 <= j < |ws'| ensures Wired(ws'[j], subs', j) {
      assert Wired(ws[j], subs, j);
    }
  }

  /** What `addDep` collects. */
  function Collected(w: Watcher, k: nat): Watcher {
    if k in w.newDepIds then w
    else w.(newDepIds := w.newDepIds + {k}, newDeps := w.newDeps + [k])
  }

  /** The deps that the watcher knows but that do not notify it. */
  function Unheard(w: Watcher, subs: seq<seq<nat>>, i: nat): set<nat> {
    set k | k in w.depIds && !(k < |subs| && i in subs[k])
  }

  /** What is said to be remembered is what the watchers hold. */
  ghost predicate Tied(ws: seq<Watcher>, subs: seq<seq<nat>>, memos: seq<Memo>) {
    |memos| == |ws| && forall i :: 0 <= i < |ws| ==> TiedAt(ws[i], subs, i, memos[i])
  }

  ghost predicate TiedAt(w: Watcher, subs: seq<seq<nat>>, i: nat, m: Memo) {
    m.active == w.active && m.dirty == w.dirty && m.value == w.value &&
    Keys(m.rest) == w.depIds && m.deaf == Unheard(w, subs, i)
  }

  lemma TiedOnlyFor(ws: seq<Watcher>, subs: seq<seq<nat>>, memos: seq<Memo>,
                    i: nat, w: Watcher, subs': seq<seq<nat>>, m: Memo)
    requires Tied(ws, subs, memos) && i < |ws| && OnlyFor(subs, subs', i) && TiedAt(w, subs', i, m)
    ensures Tied(ws[i := w], subs', memos[i := m])
  {
    var ws', memos' := ws[i := w], memos[i := m];
    forall j | 0 <= j < |ws'| ensures TiedAt(ws'[j], subs', j, memos'[j]) {
      if j != i {
        assert TiedAt(ws[j], subs, j, memos[j]);
        assert Unheard(ws[j], subs', j) == Unheard(ws[j], subs, j);
      }
    }
  }

  /** Nothing cached is outdated. */
  ghost predicate UpToDate(defs: seq<Def>, data: seq<int>, memos: seq<Memo>) {
    Acyclic(defs, |data|) && |memos| == |defs| &&
    RightWhereHolds(defs, data, memos) && Current(defs, Cache(data, memos))
  }

  /** The reactive data of an application, one dep per property, and its watchers. */
  class Runtime {
    const defs: seq<Def>
    var data: seq<int>
    var subs: seq<seq<nat>>
    var ws: seq<Watcher>
    var target: Option<nat>
    var targetStack: seq<nat>
    var queue: seq<nat>
    /** What the watchers remember, with the values their reads gave. */
    ghost var memos: seq<Memo>

    ghost predicate Shape()
      reads this
    {
      && |data| == |subs| && |defs| == |ws| == |memos| && Acyclic(defs, |data|)
      && (target.Some? ==> target.value < |ws|)
      && (target.None? ==> targetStack == [])
      && (forall i :: 0 <= i < |ws| && !defs[i].lazy ==> !ws[i].dirty)
    }

    /** Between evaluations. */
    ghost predicate Valid()
      reads this
    {
      Shape() && Links(ws, subs, {}) && Tied(ws, subs, memos) && Recorded(defs, |data|, memos) && target == None
    }

    /** Computed watchers start out dirty, the others with the value 0 of no evaluation. */
    constructor (defs: seq<Def>, data: seq<int>)
      requires Acyclic(defs, |data|)
      ensures Valid() && this.defs == defs && this.data == data && memos == Begin(defs)
    {
      this.defs, this.data := defs, data;
      subs := seq(|data|, _ => []);
      ws := seq(|defs|, i requires 0 <= i < |defs| => Watcher(true, defs[i].lazy, 0, [], [], {}, {}));
      target, targetStack, queue := None, [], [];
      memos := Begin(defs);
    }

    /** `pushTarget` */
    method PushTarget(i: nat)
      modifies this`target, this`targetStack
      ensures target == Some(i)
      ensures targetStack == old(targetStack) + if old(target).Some? then [old(target).value] else []
    {
      if target.Some? {
        targetStack := targetStack + [target.value];
      }
      target := Some(i);
    }

    /** `popTarget`, which leaves no target when the stack is empty. */
    method PopTarget()
      modifies this`target, this`targetStack
      ensures if old(targetStack) == [] then target == None && targetStack == []
              else target == Some(old(targetStack)[|old(targetStack)| - 1])
                   && targetStack == old(targetStack)[..|old(targetStack)| - 1]
    {
      if targetStack == [] {
        target := None;
      } else {
        target := Some(targetStack[|targetStack| - 1]);
        targetStack := targetStack[..|targetStack| - 1];
      }
    }

    /** `addDep` */
    method AddDep(i: nat, k: nat, ghost busy: set<nat>)
      requires Links(ws, subs, busy) && Tied(ws, subs, memos) && i < |ws| && i in busy && k < |subs|
      modifies this`ws, this`subs
      ensures Links(ws, subs, busy) && Tied(ws, subs, memos) && |subs| == |old(subs)|
      ensures ws == old(ws)[i := Collected(old(ws)[i], k)]
    {
      ghost var ws0, subs0 := ws, subs;
      assert Wired(ws[i], subs, i) && TiedAt(ws[i], subs, i, memos[i]);
      if k !in ws[i].newDepIds {
        var seen := k in ws[i].depIds;
        ws := ws[i := ws[i].(newDepIds := ws[i].newDepIds + {k}, newDeps := ws[i].newDeps + [k])];
        if !seen {
          subs := subs[k := subs[k] + [i]];
        }
        LinksOnlyFor(ws0, subs0, busy, i, ws[i], subs, busy);
        assert Unheard(ws[i], subs, i) == Unheard(ws0[i], subs0, i);
        TiedOnlyFor(ws0, subs0, memos, i, ws[i], subs, memos[i]);
      }
    }

    /** `Dep.depend` */
    method DepDepend(k: nat, ghost busy: set<nat>)
      requires Shape() && Links(ws, subs, busy) && Tied(ws, subs, memos) && k < |subs|
      requires target.Some? ==> target.value in busy
      modifies this`ws, this`subs
      ensures Shape() && Links(ws, subs, busy) && Tied(ws, subs, memos)
      ensures target.None? ==> ws == old(ws)
      ensures target.Some? ==>
        ws == old(ws)[target.value := Collected(old(ws)[target.value], k)]
    {
      if target.Some? {
        AddDep(target.value, k, busy);
      }
    }

    /** `removeSub` */
    method RemoveSub(k: nat, i: nat)
      requires k < |subs| && Once(subs[k])
      modifies this`subs
      ensures OnlyFor(old(subs), subs, i)
      ensures Once(subs[k]) && i !in subs[k]
      ensures forall j :: 0 <= j < |subs| && j != k ==> subs[j] == old(subs)[j]
    {
      RemovedOnce(subs[k], i);
      subs := subs[k := Removed(subs[k], i)];
    }

    /** The loop of `cleanupDeps` and of `teardown`: the watcher leaves the deps that it knows,
        unless it keeps them. */
    method LeaveDeps(i: nat, keep: set<nat>)
      requires i < |ws| && Wired(ws[i], subs, i) && forall k :: 0 <= k < |subs| ==> Once(subs[k])
      modifies this`subs
      ensures OnlyFor(old(subs), subs, i) && forall k :: 0 <= k < |subs| ==> Once(subs[k])
      ensures forall k :: 0 <= k < |subs| ==>
        (i in subs[k] <==> i in old(subs)[k] && (k in keep || k !in ws[i].depIds))
    {
      var deps := ws[i].deps;
      var j := |deps|;
      assert deps[j..] == [];
      while j > 0
        invariant 0 <= j <= |deps| && OnlyFor(old(subs), subs, i)
        invariant forall k :: 0 <= k < |subs| ==> Once(subs[k])
        invariant forall k :: 0 <= k < |subs| ==>
          (i in subs[k] <==> i in old(subs)[k] && (k in keep || k !in deps[j..]))
      {
        j := j - 1;
        var dep := deps[j];
        assert dep in deps && deps[j..] == [dep] + deps[j + 1..];
        if dep !in keep {
          RemoveSub(dep, i);
        }
      }
      assert deps[0..] == deps;
    }

    /** `cleanupDeps`: the watcher leaves the deps it no longer read, and the new
        dependencies become its dependencies. */
    method CleanupDeps(i: nat, ghost rest: set<(nat, int)>, ghost busy: set<nat>)
      requires Links(ws, subs, busy) && Tied(ws, subs, memos) && i < |ws| && i in busy
      requires Keys(rest) == ws[i].newDepIds
      modifies this`ws, this`subs, this`memos
      ensures Links(ws, subs, busy - {i}) && Tied(ws, subs, memos) && |subs| == |old(subs)|
      ensures ws == old(ws)[i := old(ws)[i].(
        deps := old(ws)[i].newDeps, depIds := old(ws)[i].newDepIds, newDeps := [], newDepIds := {})]
      ensures memos == old(memos)[i := old(memos)[i].(rest := rest, deaf := old(memos)[i].deaf * Keys(rest))]
    {
      ghost var subs0, ws0 := subs, ws;
      var w := ws[i];
      assert Wired(w, subs, i) && TiedAt(w, subs, i, memos[i]);
      LeaveDeps(i, w.newDepIds);
      ws := ws[i := w.(deps := w.newDeps, depIds := w.newDepIds, newDeps := [], newDepIds := {})];
      LinksOnlyFor(ws0, subs0, busy, i, ws[i], subs, busy - {i});
      ghost var m := memos[i].(rest := rest, deaf := memos[i].deaf * Keys(rest));
      assert Unheard(ws[i], subs, i) == m.deaf;
      TiedOnlyFor(ws0, subs0, memos, i, ws[i], subs, m);
      memos := memos[i := m];
    }

    /** `teardown`: the watcher leaves every dep, and knows them as before. */
    method Teardown(i: nat)
      requires Valid() && i < |ws|
      modifies this`ws, this`subs, this`memos
      ensures Valid() && !ws[i].active
      ensures ws == old(ws)[i := old(ws)[i].(active := false)] && memos == Stopped(old(memos), i)
      ensures old(ws)[i].active ==> forall k :: 0 <= k < |subs| ==> i !in subs[k]
    {
      ghost var subs0, ws0 := subs, ws;
      var w := ws[i];
      assert Wired(w, subs, i) && TiedAt(w, subs, i, memos[i]);
      NextRecorded(defs, Cache(data, memos), Stop(i));
      if w.active {
        LeaveDeps(i, {});
        ws := ws[i := w.(active := false)];
        LinksOnlyFor(ws0, subs0, {}, i, ws[i], subs, {});
        assert Unheard(ws[i], subs, i) == ws[i].depIds;
        TiedOnlyFor(ws0, subs0, memos, i, ws[i], subs, Stopped(memos, i)[i]);
        memos := Stopped(memos, i);
      }
    }

    /** The watchers under evaluation: the target and those below it on the stack. */
    ghost predicate Evaluating(busy: set<nat>, r: nat)
      reads this
    {
      && Shape() && Links(ws, subs, busy) && Tied(ws, subs, memos)
      && (target.Some? ==> target.value in busy)
      && (forall i :: i in busy ==> i < |ws| && r <= defs[i].rank)
    }

    /** Everything an evaluation below rank `r` leaves alone. */
    ghost predicate Untouched(ws0: seq<Watcher>, ws1: seq<Watcher>, r: nat)
      requires |defs| == |ws0|
    {
      && |ws1| == |ws0|
      && forall i :: 0 <= i < |ws0| && r <= defs[i].rank ==> ws1[i] == ws0[i]
    }

    /** Runs a getter on behalf of the current target. */
    method RunGetter(g: Getter, ghost r: nat, ghost n: nat, ghost busy: set<nat>) returns (v: int)
      requires Evaluating(busy, r) && Ranked(defs, |data|, g, r, n) && target.Some?
      modifies this`ws, this`subs, this`target, this`targetStack, this`memos
      ensures Evaluating(busy, r) && target == old(target) && targetStack == old(targetStack)
      ensures |ws| == |old(ws)| && |subs| == |old(subs)|
      ensures var ran := Running(defs, data, old(memos), g, r, n);
              v == ran.value && memos == ran.memos &&
              ws[target.value].newDepIds == old(ws)[target.value].newDepIds + Keys(ran.rest)
      ensures Untouched(old(ws), ws[target.value := old(ws)[target.value]], r)
      ensures ws[target.value] == old(ws)[target.value].(
        newDeps := ws[target.value].newDeps, newDepIds := ws[target.value].newDepIds)
      decreases r, n, 0
    {
      hide Links, Tied, Acyclic, Keys;
      match g
      case Return(value) =>
        v := value;
        NoKeys();
      case ReadData(key, next) =>
        ghost var memos0 := memos;
        ghost var read := Stored(data, key);
        DepDepend(key, busy);
        v := RunGetter(next(Stored(data, key)), r, n - 1, busy);
        KeysOne(key, read);
        KeysJoin({(key, read)}, Running(defs, data, memos0, next(read), r, n - 1).rest);
      case ReadComputed(comp, next) =>
        ghost var memos0 := memos;
        var c := ComputedGetter(comp, busy, r);
        ghost var looked := memos;
        v := RunGetter(next(c), r, n - 1, busy);
        KeysJoin(looked[comp].rest, Running(defs, data, looked, next(c), r, n - 1).rest);
    }

    /** `createComputedGetter`: evaluates a dirty watcher first, and makes the current
        target depend on everything the watcher depends on. */
    method ComputedGetter(i: nat, ghost busy: set<nat>, ghost r: nat) returns (v: int)
      requires Evaluating(busy, r) && i < |ws| && defs[i].lazy && defs[i].rank < r
      modifies this`ws, this`subs, this`target, this`targetStack, this`memos
      ensures Evaluating(busy, r) && target == old(target) && targetStack == old(targetStack)
      ensures |ws| == |old(ws)| && |subs| == |old(subs)|
      ensures memos == Looked(defs, data, old(memos), i) && v == memos[i].value
      ensures UpToDate(defs, data, old(memos)) ==>
        v == Value(defs, data, i) && Keys(memos[i].rest) == Sources(defs, data, i)
      ensures target.None? ==> Untouched(old(ws), ws, r)
      ensures target.Some? ==>
        && ws[target.value].newDepIds == old(ws)[target.value].newDepIds + Keys(memos[i].rest)
        && Untouched(old(ws), ws[target.value := old(ws)[target.value]], r)
        && ws[target.value] == old(ws)[target.value].(
             newDeps := ws[target.value].newDeps, newDepIds := ws[target.value].newDepIds)
      decreases defs[i].rank + 1, 0, 1
    {
      hide Links, Acyclic, Keys;
      ghost var memos0 := memos;
      assert TiedAt(ws[i], subs, i, memos[i]);
      if ws[i].dirty {
        Evaluate(i, busy);
      }
      assert TiedAt(ws[i], subs, i, memos[i]);
      if target.Some? {
        WatcherDepend(i, busy, r);
      }
      v := ws[i].value;
      if UpToDate(defs, data, memos0) {
        LookedUpToDate(defs, data, memos0, i);
      }
    }

    /** `Watcher.depend` */
    method WatcherDepend(i: nat, ghost busy: set<nat>, ghost r: nat)
      requires Evaluating(busy, r) && target.Some? && i < |ws| && i != target.value
      modifies this`ws, this`subs
      ensures Evaluating(busy, r) && |ws| == |old(ws)| && |subs| == |old(subs)|
      ensures ws == old(ws)[target.value := old(ws)[target.value].(
        newDeps := ws[target.value].newDeps,
        newDepIds := old(ws)[target.value].newDepIds + old(ws)[i].depIds)]
    {
      var t := target.value;
      var ds := ws[i].deps;
      assert Wired(ws[i], subs, i);
      hide Tied;
      var j := |ds|;
      while j > 0
        invariant 0 <= j <= |ds| && Evaluating(busy, r) && |ws| == |old(ws)| && |subs| == |old(subs)|
        invariant ws == old(ws)[t := old(ws)[t].(newDeps := ws[t].newDeps, newDepIds := ws[t].newDepIds)]
        invariant forall k :: k in ws[t].newDepIds <==> k in old(ws)[t].newDepIds || k in ds[j..]
      {
        j := j - 1;
        assert ds[j] in ds;
        DepDepend(ds[j], busy);
        assert ds[j..] == [ds[j]] + ds[j + 1..];
      }
      assert ds[0..] == ds;
      assert ws[t].newDepIds == old(ws)[t].newDepIds + old(ws)[i].depIds;
    }

    /** `evaluate` */
    method Evaluate(i: nat, ghost busy: set<nat>)
      requires i < |ws| && i < |defs| && Evaluating(busy, defs[i].rank + 1)
      requires defs[i].lazy && i !in busy
      modifies this`ws, this`subs, this`target, this`targetStack, this`memos
      ensures Evaluating(busy, defs[i].rank + 1) && target == old(target) && targetStack == old(targetStack)
      ensures |ws| == |old(ws)| && |subs| == |old(subs)| && !ws[i].dirty
      ensures memos == Evaluated(defs, data, old(memos), i)
      ensures UpToDate(defs, data, old(memos)) ==> ws[i].value == Value(defs, data, i)
      ensures Untouched(old(ws), ws[i := old(ws)[i]], defs[i].rank)
      decreases defs[i].rank + 1, 0, 0
    {
      hide Acyclic, Keys, Links, Tied, Wired, TiedAt, UpToDate, Evaluated;
      var value := Get(i, busy);
      ghost var ws1, memos1 := ws, memos;
      ws := ws[i := ws[i].(value := value)];
      ws := ws[i := ws[i].(dirty := false)];
      memos := memos[i := memos[i].(dirty := false, value := value)];
      RedirtiedOne(ws1, ws, subs, memos1, memos, busy, i);
    }

    /** `get`: evaluates the getter as the target and collects its dependencies anew. */
    method Get(i: nat, ghost busy: set<nat>) returns (v: int)
      requires i < |ws| && i < |defs| && Evaluating(busy, defs[i].rank) && i !in busy
      modifies this`ws, this`subs, this`target, this`targetStack, this`memos
      ensures Evaluating(busy, defs[i].rank) && target == old(target) && targetStack == old(targetStack)
      ensures |ws| == |old(ws)| && |subs| == |old(subs)|
      ensures var evaluated := Evaluated(defs, data, old(memos), i);
              v == evaluated[i].value &&
              memos == evaluated[i := evaluated[i].(dirty := old(ws)[i].dirty, value := old(ws)[i].value)]
      ensures UpToDate(defs, data, old(memos)) ==> v == Value(defs, data, i) && ws[i].depIds == Sources(defs, data, i)
      ensures ws[i] == old(ws)[i].(deps := ws[i].deps, depIds := ws[i].depIds)
      ensures Untouched(old(ws), ws[i := old(ws)[i]], defs[i].rank)
      decreases defs[i].rank, defs[i].steps + 1, 1
    {
      hide Acyclic, Keys, Links, Tied, Wired, TiedAt, Running, RightWhereHolds, Current;
      ghost var memos0 := memos;
      v := RunAsTarget(i, busy);
      Known(ws, subs, memos, i);
      CleanupDeps(i, RunOf(defs, data, memos0, i).rest, busy + {i});
      assert busy + {i} - {i} == busy;
      if UpToDate(defs, data, memos0) {
        EvaluatedUpToDate(defs, data, memos0, i);
      }
    }

    /** Between `pushTarget` and `popTarget`. */
    method RunAsTarget(i: nat, ghost busy: set<nat>) returns (v: int)
      requires i < |ws| && i < |defs| && Evaluating(busy, defs[i].rank) && i !in busy
      modifies this`ws, this`subs, this`target, this`targetStack, this`memos
      ensures Evaluating(busy + {i}, defs[i].rank) && target == old(target) && targetStack == old(targetStack)
      ensures |ws| == |old(ws)| && |subs| == |old(subs)|
      ensures v == RunOf(defs, data, old(memos), i).value && memos == RunOf(defs, data, old(memos), i).memos
      ensures ws[i].newDepIds == Keys(RunOf(defs, data, old(memos), i).rest)
      ensures ws[i] == old(ws)[i].(newDeps := ws[i].newDeps, newDepIds := ws[i].newDepIds)
      ensures old(ws)[i].newDeps == [] && old(ws)[i].newDepIds == {}
      ensures Untouched(old(ws), ws[i := old(ws)[i]], defs[i].rank)
      decreases defs[i].rank, defs[i].steps + 1, 0
    {
      assert Ranked(defs, |data|, defs[i].getter, defs[i].rank, defs[i].steps);
      hide Acyclic, Keys, Links, Tied, Wired, TiedAt, Running;
      NothingNew(ws, subs, busy, i);
      PushTarget(i);
      v := RunGetter(defs[i].getter, defs[i].rank, defs[i].steps, busy + {i});
      PopTarget();
    }

    /** `run`, the scheduler's job for a watcher that is not a computed property. */
    method Run(i: nat)
      requires Valid() && i < |ws| && !defs[i].lazy
      modifies this`ws, this`subs, this`target, this`targetStack, this`memos
      ensures Valid() && targetStack == [] && |subs| == |old(subs)|
      ensures memos == Rerunning(defs, data, old(memos), i)
      ensures old(ws)[i].active && UpToDate(defs, data, old(memos)) ==>
        ws[i].value == Value(defs, data, i) && ws[i].depIds == Sources(defs, data, i)
      ensures !old(ws)[i].active ==> ws == old(ws)
    {
      NextRecorded(defs, Cache(data, memos), Rerun(i));
      hide Acyclic, Keys, Links, Tied, Wired, TiedAt, UpToDate, Evaluated, Recorded;
      Known(ws, subs, memos, i);
      if ws[i].active {
        RunActive(i);
      }
    }

    method RunActive(i: nat)
      requires i < |ws| == |defs| && Evaluating({}, defs[i].rank) && !defs[i].lazy && target == None
      modifies this`ws, this`subs, this`target, this`targetStack, this`memos
      ensures Evaluating({}, defs[i].rank) && target == None && targetStack == [] && |subs| == |old(subs)|
      ensures memos == Evaluated(defs, data, old(memos), i)
      ensures UpToDate(defs, data, old(memos)) ==>
        ws[i].value == Value(defs, data, i) && ws[i].depIds == Sources(defs, data, i)
    {
      hide Acyclic, Keys, Links, Tied, Wired, TiedAt, UpToDate, Evaluated, Untouched;
      var value := Get(i, {});
      ghost var ws1, memos1 := ws, memos;
      if value != ws[i].value {
        ws := ws[i := ws[i].(value := value)];
      }
      memos := memos[i := memos[i].(dirty := false, value := value)];
      RedirtiedOne(ws1, ws, subs, memos1, memos, {}, i);
    }

    /** Reading a computed property from outside any evaluation. */
    method ReadProperty(i: nat) returns (v: int)
      requires Valid() && i < |ws| && defs[i].lazy
      modifies this`ws, this`subs, this`target, this`targetStack, this`memos
      ensures Valid() && |subs| == |old(subs)|
      ensures memos == Looked(defs, data, old(memos), i) && v == memos[i].value
      ensures Holds(data, memos[i].rest) ==> v == Value(defs, data, i)
    {
      hide Acyclic, Keys;
      NextRecorded(defs, Cache(data, memos), Read(i));
      LookedRight(defs, data, data, memos, i);
      v := ComputedGetter(i, {}, defs[i].rank + 1);
      assert Clean(defs, memos, i);
    }

    /** `update`: a computed watcher only becomes dirty, any other is queued. */
    method Update(i: nat)
      requires i < |ws| && i < |defs|
      modifies this`ws, this`queue
      ensures ws == if defs[i].lazy then old(ws)[i := old(ws)[i].(dirty := true)] else old(ws)
      ensures queue == if defs[i].lazy then old(queue) else old(queue) + [i]
    {
      if defs[i].lazy {
        ws := ws[i := ws[i].(dirty := true)];
      } else {
        queue := queue + [i];
      }
    }

    /** `notify`: every subscriber is updated, in the order of subscription. */
    method Notify(k: nat)
      requires k < |subs| && |defs| == |ws| && forall i :: i in subs[k] ==> i < |ws|
      modifies this`ws, this`queue
      ensures |ws| == |old(ws)|
      ensures forall i :: 0 <= i < |ws| ==>
        ws[i] == old(ws)[i].(dirty := old(ws)[i].dirty || (defs[i].lazy && i in subs[k]))
      ensures forall i :: i in queue <==> i in old(queue) || (i in subs[k] && i < |defs| && !defs[i].lazy)
    {
      var list := subs[k];
      for j := 0 to |list|
        invariant |ws| == |old(ws)|
        invariant forall i :: 0 <= i < |ws| ==>
          ws[i] == old(ws)[i].(dirty := old(ws)[i].dirty || (defs[i].lazy && i in list[..j]))
        invariant forall i :: i in queue <==> i in old(queue) || (i in list[..j] && i < |defs| && !defs[i].lazy)
      {
        assert list[j] in subs[k];
        Update(list[j]);
        assert list[..j + 1] == list[..j] + [list[j]];
      }
      assert list[..|list|] == list;
    }

    /** `reactiveSetter`: a changed value makes every computed property dirty that hears of it,
        and queues every other active watcher that depends on it. */
    method Set(k: nat, newVal: int)
      requires Valid() && k < |data|
      modifies this`data, this`ws, this`queue, this`memos
      ensures Valid() && data == old(data)[k := newVal]
      ensures Cache(data, memos) == Written(defs, old(Cache(data, memos)), k, newVal)
      ensures old(data)[k] == newVal ==> ws == old(ws) && queue == old(queue)
      ensures old(data)[k] != newVal ==>
        forall i :: 0 <= i < |ws| && ws[i].active && k in ws[i].depIds ==>
          if defs[i].lazy then ws[i].dirty else i in queue
      ensures UpToDate(defs, old(data), old(memos)) && AllHear(defs, old(Cache(data, memos)), k) ==>
        UpToDate(defs, data, memos)
    {
      hide Acyclic, Keys, RightWhereHolds, Holds;
      ghost var c := Cache(data, memos);
      NextRecorded(defs, c, Write(k, newVal));
      if UpToDate(defs, data, memos) && AllHear(defs, c, k) {
        NextCurrent(defs, c, Write(k, newVal));
      }
      if newVal == data[k] {
        return;
      }
      data := data[k := newVal];
      Notify(k);
      memos := Notified(defs, memos, k);
      HeardIsSubscribed(old(ws), subs, c.memos, k);
      Redirtied(old(ws), ws, subs, c.memos, memos);
      assert forall i :: 0 <= i < |ws| ==> Wired(old(ws)[i], subs, i);
    }

    /** Any session of writes, reads, watcher runs and teardowns returns what the cache model
        says. A session that reads nothing outdated, like any that stops no computed property,
        answers as if nothing were cached. */
    method Session(ops: seq<Op>) returns (answers: seq<int>)
      requires Valid() && AllPossible(defs, |data|, ops)
      modifies this
      ensures Valid() && answers == Told(defs, old(Cache(data, memos)), ops)
      ensures Cache(data, memos) == Caching.After(defs, old(Cache(data, memos)), ops)
      ensures NoneOutdated(defs, old(Cache(data, memos)), ops) ==> answers == Answers(defs, old(data), ops)
      ensures StopsOnly(defs, ops, {}) && old(memos) == Begin(defs) ==> answers == Answers(defs, old(data), ops)
    {
      ghost var c := Cache(data, memos);
      if NoneOutdated(defs, c, ops) {
        RightUnlessOutdated(defs, c, ops);
      }
      if StopsOnly(defs, ops, {}) && memos == Begin(defs) {
        UnstoppedIsHeeded(defs, c, ops);
        HeededIsNotOutdated(defs, c, ops);
        RightUnlessOutdated(defs, c, ops);
      }
      answers := Perform(ops);
    }

    method Perform(ops: seq<Op>) returns (answers: seq<int>)
      requires Valid() && AllPossible(defs, |data|, ops)
      modifies this
      ensures Valid() && answers == Told(defs, old(Cache(data, memos)), ops)
      ensures Cache(data, memos) == Caching.After(defs, old(Cache(data, memos)), ops)
    {
      hide Acyclic, Told, Caching.After, Links, Tied, Recorded;
      ghost var c := Cache(data, memos);
      answers := [];
      for j := 0 to |ops|
        invariant Valid() && AllPossible(defs, |data|, ops[j..])
        invariant Told(defs, c, ops) == answers + Told(defs, Cache(data, memos), ops[j..])
        invariant Caching.After(defs, c, ops) == Caching.After(defs, Cache(data, memos), ops[j..])
      {
        assert ops[j] in ops[j..] && ops[j..][0] == ops[j] && ops[j..][1..] == ops[j + 1..];
        ToldFirst(defs, Cache(data, memos), ops[j..]);
        var told := PerformOne(ops[j]);
        answers := answers + told;
      }
      assert ops[|ops|..] == [];
      ToldNothing(defs, Cache(data, memos));
    }

    method PerformOne(op: Op) returns (told: seq<int>)
      requires Valid() && Possible(defs, |data|, op)
      modifies this
      ensures Valid() && |data| == |old(data)| && Cache(data, memos) == Next(defs, old(Cache(data, memos)), op)
      ensures told == if op.Read? then [memos[op.comp].value] else []
    {
      hide Acyclic, Links, Tied, Recorded;
      told := [];
      match op
      case Write(key, value) => Set(key, value);
      case Read(comp) =>
        var v := ReadProperty(comp);
        told := [v];
      case Rerun(i) => Run(i);
      case Stop(i) => Teardown(i);
    }
  }

  lemma ToldFirst(defs: seq<Def>, c: Cache, ops: seq<Op>)
    requires Fits(defs, c) && AllPossible(defs, |c.data|, ops) && ops != []
    ensures Possible(defs, |c.data|, ops[0]) && AllPossible(defs, |c.data|, ops[1..])
    ensures var c' := Next(defs, c, ops[0]);
            Told(defs, c, ops) == (if ops[0].Read? then [c'.memos[ops[0].comp].value] else []) + Told(defs, c', ops[1..]) &&
            Caching.After(defs, c, ops) == Caching.After(defs, c', ops[1..])
  {
    assert ops[0] in ops;
  }

  lemma ToldNothing(defs: seq<Def>, c: Cache)
    requires Fits(defs, c)
    ensures Told(defs, c, []) == [] && Caching.After(defs, c, []) == c
  {
  }

  ghost function RunOf(defs: seq<Def>, data: seq<int>, memos: seq<Memo>, i: nat): Ran
    requires Acyclic(defs, |data|) && i < |defs| && |memos| == |defs|
  {
    Running(defs, data, memos, defs[i].getter, defs[i].rank, defs[i].steps)
  }

  lemma NoKeys()
    ensures Keys({}) == {}
  {
  }

  lemma KeysOne(key: nat, v: int)
    ensures Keys({(key, v)}) == {key}
  {
    assert (key, v) in {(key, v)};
  }

  lemma LookedUpToDate(defs: seq<Def>, data: seq<int>, memos: seq<Memo>, i: nat)
    requires UpToDate(defs, data, memos) && i < |defs| && defs[i].lazy
    ensures var m := Looked(defs, data, memos, i)[i];
            m.value == Value(defs, data, i) && Keys(m.rest) == Sources(defs, data, i)
  {
    LookedRight(defs, data, data, memos, i);
    LookedCurrent(defs, data, memos, i);
    assert Clean(defs, Looked(defs, data, memos, i), i);
  }

  lemma EvaluatedUpToDate(defs: seq<Def>, data: seq<int>, memos: seq<Memo>, i: nat)
    requires UpToDate(defs, data, memos) && i < |defs|
    ensures var m := Evaluated(defs, data, memos, i)[i];
            m.value == Value(defs, data, i) && Keys(m.rest) == Sources(defs, data, i)
  {
    RunningRight(defs, data, data, memos, defs[i].getter, defs[i].rank, defs[i].steps);
    RunningCurrent(defs, data, memos, defs[i].getter, defs[i].rank, defs[i].steps);
  }

  /** A dep notifies exactly the watchers that hear it. */
  lemma HeardIsSubscribed(ws: seq<Watcher>, subs: seq<seq<nat>>, memos: seq<Memo>, k: nat)
    requires Links(ws, subs, {}) && Tied(ws, subs, memos) && k < |subs|
    ensures forall i :: 0 <= i < |ws| ==> (Hears(memos[i], k) <==> i in subs[k])
  {
    forall i | 0 <= i < |ws| ensures Hears(memos[i], k) <==> i in subs[k] {
      assert Wired(ws[i], subs, i) && TiedAt(ws[i], subs, i, memos[i]);
      hide Keys;
    }
  }

  lemma NothingNew(ws: seq<Watcher>, subs: seq<seq<nat>>, busy: set<nat>, i: nat)
    requires Links(ws, subs, busy) && i < |ws| && i !in busy
    ensures ws[i].newDepIds == {} && ws[i].newDeps == [] && Links(ws, subs, busy + {i})
  {
    assert Wired(ws[i], subs, i);
  }

  lemma Known(ws: seq<Watcher>, subs: seq<seq<nat>>, memos: seq<Memo>, i: nat)
    requires Tied(ws, subs, memos) && i < |ws|
    ensures |memos| == |ws| && Keys(memos[i].rest) == ws[i].depIds
    ensures memos[i].active == ws[i].active && memos[i].dirty == ws[i].dirty && memos[i].value == ws[i].value
  {
    assert TiedAt(ws[i], subs, i, memos[i]);
  }

  lemma RedirtiedOne(ws: seq<Watcher>, ws': seq<Watcher>, subs: seq<seq<nat>>, memos: seq<Memo>, memos': seq<Memo>,
                     busy: set<nat>, i: nat)
    requires Tied(ws, subs, memos) && Links(ws, subs, busy) && i < |ws| == |ws'| && |memos| == |ws|
    requires ws' == ws[i := ws[i].(dirty := ws'[i].dirty, value := ws'[i].value)]
    requires memos' == memos[i := memos[i].(dirty := ws'[i].dirty, value := ws'[i].value)]
    ensures Tied(ws', subs, memos') && Links(ws', subs, busy)
  {
    assert forall j :: 0 <= j < |ws| ==> TiedAt(ws[j], subs, j, memos[j]);
    hide TiedAt, Links;
    assert TiedAt(ws[i], subs, i, memos[i]);
    Redirtied(ws, ws', subs, memos, memos');
  }

  /** The watchers may change their values and become dirty or clean. */
  lemma Redirtied(ws: seq<Watcher>, ws': seq<Watcher>, subs: seq<seq<nat>>, memos: seq<Memo>, memos': seq<Memo>)
    requires Tied(ws, subs, memos) && |ws'| == |ws| && |memos'| == |ws|
    requires forall i :: 0 <= i < |ws| ==>
      ws'[i] == ws[i].(dirty := ws'[i].dirty, value := ws'[i].value) &&
      memos'[i] == memos[i].(dirty := ws'[i].dirty, value := ws'[i].value)
    ensures Tied(ws', subs, memos')
    ensures forall busy :: Links(ws, subs, busy) ==> Links(ws', subs, busy)
  {
    forall i | 0 <= i < |ws| ensures TiedAt(ws'[i], subs, i, memos'[i]) {
      assert TiedAt(ws[i], subs, i, memos[i]);
    }
    forall busy | Links(ws, subs, busy) ensures Links(ws', subs, busy) {
      forall i | 0 <= i < |ws| ensures Wired(ws'[i], subs, i) {
        assert Wired(ws[i], subs, i);
      }
    }
  }
}

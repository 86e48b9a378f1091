/** Which computed properties may be torn down while they are still read. */
module Teardowns {
  import opened Getters
  import opened Caching

  /** The property has the same value on all data. */
  ghost predicate Constant(defs: seq<Def>, keys: nat, i: nat)
    requires Acyclic(defs, keys) && i < |defs|
  {
    forall a: seq<int>, b: seq<int> | |a| == keys && |b| == keys :: Value(defs, a, i) == Value(defs, b, i)
  }

  predicate AgreeOn(keys: set<nat>, a: seq<int>, b: seq<int>) {
    |a| == |b| && forall k | k in keys && k < |a| :: a[k] == b[k]
  }

  /** A cached value is right, also after changes to properties that it does not rest on. */
  ghost predicate Stable(defs: seq<Def>, data: seq<int>, memos: seq<Memo>, other: seq<int>)
    requires Acyclic(defs, |data|) && |memos| == |defs| && |other| == |data|
  {
    forall i: nat | Clean(defs, memos, i) && AgreeOn(Keys(memos[i].rest), data, other) ::
      memos[i].value == Value(defs, other, i)
  }

  lemma KeyOf(key: nat, v: int)
    ensures key in Keys({(key, v)})
  {
    assert (key, v) in {(key, v)};
  }

  lemma StableAt(defs: seq<Def>, data: seq<int>, memos: seq<Memo>, other: seq<int>, i: nat)
    requires Acyclic(defs, |data|) && |memos| == |defs| && |other| == |data| && Stable(defs, data, memos, other)
    requires Clean(defs, memos, i)
    ensures AgreeOn(Keys(memos[i].rest), data, other) ==> memos[i].value == Value(defs, other, i)
  {
  }

  lemma {:induction false} RunningStable(
    defs: seq<Def>, data: seq<int>, memos: seq<Memo>, other: seq<int>, g: Getter, r: nat, n: nat)
    requires Acyclic(defs, |data|) && Ranked(defs, |data|, g, r, n) && |memos| == |defs| && |other| == |data|
    requires Stable(defs, data, memos, other)
    ensures var ran := Running(defs, data, memos, g, r, n);
            Stable(defs, data, ran.memos, other) &&
            (AgreeOn(Keys(ran.rest), data, other) ==> ran.value == Eval(defs, other, g, r, n))
    decreases r, n
  {
    hide Keys, Acyclic, Stable;
    match g
    case Return(v) =>
    case ReadData(key, next) =>
      var v := Stored(data, key);
      RunningStable(defs, data, memos, other, next(v), r, n - 1);
      var later := Running(defs, data, memos, next(v), r, n - 1);
      KeysJoin({(key, v)}, later.rest);
      KeyOf(key, v);
    case ReadComputed(comp, next) =>
      LookedStable(defs, data, memos, other, comp);
      var looked := Looked(defs, data, memos, comp);
      StableAt(defs, data, looked, other, comp);
      RunningStable(defs, data, looked, other, next(looked[comp].value), r, n - 1);
      KeysJoin(looked[comp].rest, Running(defs, data, looked, next(looked[comp].value), r, n - 1).rest);
  }

  lemma {:induction false} LookedStable(defs: seq<Def>, data: seq<int>, memos: seq<Memo>, other: seq<int>, i: nat)
    requires Acyclic(defs, |data|) && i < |defs| && |memos| == |defs| && |other| == |data|
    requires Stable(defs, data, memos, other)
    ensures Stable(defs, data, Looked(defs, data, memos, i), other) && !Looked(defs, data, memos, i)[i].dirty
    decreases defs[i].rank, defs[i].steps + 2
  {
    if memos[i].dirty {
      EvaluatedStable(defs, data, memos, other, i);
    }
  }

  lemma {:induction false} EvaluatedStable(defs: seq<Def>, data: seq<int>, memos: seq<Memo>, other: seq<int>, i: nat)
    requires Acyclic(defs, |data|) && i < |defs| && |memos| == |defs| && |other| == |data|
    requires Stable(defs, data, memos, other)
    ensures Stable(defs, data, Evaluated(defs, data, memos, i), other) && !Evaluated(defs, data, memos, i)[i].dirty
    decreases defs[i].rank, defs[i].steps + 1
  {
    RunningStable(defs, data, memos, other, defs[i].getter, defs[i].rank, defs[i].steps);
    var ran := Running(defs, data, memos, defs[i].getter, defs[i].rank, defs[i].steps);
    var memos' := Evaluated(defs, data, memos, i);
    forall j: nat | Clean(defs, memos', j) && AgreeOn(Keys(memos'[j].rest), data, other)
      ensures memos'[j].value == Value(defs, other, j)
    {
      assert j != i ==> Clean(defs, ran.memos, j);
    }
  }

  /** What a session keeps in which only constant computed properties are stopped. */
  ghost predicate Harmless(defs: seq<Def>, c: Cache)
    requires Fits(defs, c)
  {
    (forall other: seq<int> | |other| == |c.data| :: Stable(defs, c.data, c.memos, other)) &&
    (forall i: nat | Deaf(defs, c.memos, i) :: Constant(defs, |c.data|, i))
  }

  lemma WrittenStable(defs: seq<Def>, c: Cache, key: nat, value: int, other: seq<int>)
    requires Fits(defs, c) && key < |c.data| && Harmless(defs, c) && |other| == |c.data|
    ensures Stable(defs, Written(defs, c, key, value).data, Written(defs, c, key, value).memos, other)
  {
    var c' := Written(defs, c, key, value);
    assert Stable(defs, c.data, c.memos, other) && Stable(defs, c.data, c.memos, c.data);
    forall i: nat | Clean(defs, c'.memos, i) && AgreeOn(Keys(c'.memos[i].rest), c'.data, other)
      ensures c'.memos[i].value == Value(defs, other, i)
    {
      assert Clean(defs, c.memos, i);
      if c.memos[i].deaf != {} {
        assert Deaf(defs, c.memos, i) && AgreeOn(Keys(c.memos[i].rest), c.data, c.data);
      } else {
        assert AgreeOn(Keys(c.memos[i].rest), c.data, other);
      }
    }
  }

  lemma NextHarmless(defs: seq<Def>, c: Cache, op: Op)
    requires Fits(defs, c) && Possible(defs, |c.data|, op) && Harmless(defs, c)
    requires op.Stop? && defs[op.watcher].lazy ==> Constant(defs, |c.data|, op.watcher)
    ensures Harmless(defs, Next(defs, c, op))
  {
    var c' := Next(defs, c, op);
    forall i: nat | Deaf(defs, c'.memos, i) ensures Constant(defs, |c'.data|, i) {
      NextDeaf(defs, c, op, i);
    }
    forall other: seq<int> | |other| == |c'.data| ensures Stable(defs, c'.data, c'.memos, other) {
      assert Stable(defs, c.data, c.memos, other);
      match op
      case Read(comp) => LookedStable(defs, c.data, c.memos, other, comp);
      case Rerun(i) =>
        if c.memos[i].active {
          EvaluatedStable(defs, c.data, c.memos, other, i);
        }
      case Write(key, value) => WrittenStable(defs, c, key, value, other);
      case Stop(i) =>
        assert forall j: nat | Clean(defs, c'.memos, j) ::
          Clean(defs, c.memos, j) && c'.memos[j].rest == c.memos[j].rest && c'.memos[j].value == c.memos[j].value;
    }
  }

  lemma {:induction false} HarmlessIsRight(defs: seq<Def>, c: Cache, ops: seq<Op>, stoppable: set<nat>)
    requires Fits(defs, c) && AllPossible(defs, |c.data|, ops) && Harmless(defs, c) && StopsOnly(defs, ops, stoppable)
    requires forall i | i in stoppable && i < |defs| && defs[i].lazy :: Constant(defs, |c.data|, i)
    ensures Told(defs, c, ops) == Answers(defs, c.data, ops)
    decreases |ops|
  {
    if ops != [] {
      assert ops[0] in ops && Possible(defs, |c.data|, ops[0]);
      var c' := Next(defs, c, ops[0]);
      NextHarmless(defs, c, ops[0]);
      HarmlessIsRight(defs, c', ops[1..], stoppable);
      match ops[0]
      case Read(comp) =>
        assert Stable(defs, c.data, c.memos, c.data);
        LookedStable(defs, c.data, c.memos, c.data, comp);
        assert Clean(defs, c'.memos, comp) && AgreeOn(Keys(c'.memos[comp].rest), c.data, c.data);
      case Write(key, value) => assert c'.data == c.data[key := value];
      case _ =>
    }
  }

  /** Writes that turn the data from `k` on into `data`. */
  function Writes(data: seq<int>, k: nat): seq<Op>
    requires k <= |data|
    decreases |data| - k
  {
    if k == |data| then [] else [Write(k, data[k])] + Writes(data, k + 1)
  }

  lemma {:induction false} WritesPossible(defs: seq<Def>, data: seq<int>, k: nat)
    requires k <= |data|
    ensures AllPossible(defs, |data|, Writes(data, k)) && StopsOnly(defs, Writes(data, k), {})
    decreases |data| - k
  {
    if k < |data| {
      WritesPossible(defs, data, k + 1);
    }
  }

  /** A stopped clean property hears none of the writes. */
  lemma {:induction false} StoppedStays(defs: seq<Def>, c: Cache, i: nat, data: seq<int>, k: nat)
    requires Fits(defs, c) && k <= |data| == |c.data| && c.data[..k] == data[..k]
    requires Clean(defs, c.memos, i) && Keys(c.memos[i].rest) <= c.memos[i].deaf
    requires AllPossible(defs, |data|, Writes(data, k) + [Read(i)])
    ensures Told(defs, c, Writes(data, k) + [Read(i)]) == [c.memos[i].value]
    ensures Answers(defs, c.data, Writes(data, k) + [Read(i)]) == [Value(defs, data, i)]
    decreases |data| - k
  {
    var ops := Writes(data, k) + [Read(i)];
    if k == |data| {
      assert ops == [Read(i)] && ops[1..] == [] && c.data == data;
    } else {
      var c' := Written(defs, c, k, data[k]);
      assert ops[0] == Write(k, data[k]) && ops[1..] == Writes(data, k + 1) + [Read(i)];
      assert c'.data == c.data[k := data[k]] && c'.data[..k + 1] == data[..k + 1];
      StoppedStays(defs, c', i, data, k + 1);
    }
  }

  /** Read, stop, change the data, read again. */
  function Betrayal(i: nat, data: seq<int>): seq<Op> {
    [Read(i)] + ([Stop(i)] + (Writes(data, 0) + [Read(i)]))
  }

  /** A property that is stopped after its first read hears nothing. */
  lemma ReadThenStopped(defs: seq<Def>, a: seq<int>, i: nat)
    requires Acyclic(defs, |a|) && i < |defs| && defs[i].lazy
    ensures var memos := Looked(defs, a, Begin(defs), i);
            memos[i].value == Value(defs, a, i) && Clean(defs, Stopped(memos, i), i) &&
            Stopped(memos, i)[i].value == Value(defs, a, i) && Keys(Stopped(memos, i)[i].rest) <= Stopped(memos, i)[i].deaf
  {
    var memos := Looked(defs, a, Begin(defs), i);
    assert Stable(defs, a, Begin(defs), a);
    LookedStable(defs, a, Begin(defs), a, i);
    assert Clean(defs, memos, i) && AgreeOn(Keys(memos[i].rest), a, a);
    LookedHears(defs, a, Begin(defs), i);
  }

  lemma BetrayalPossible(defs: seq<Def>, b: seq<int>, i: nat)
    requires i < |defs| && defs[i].lazy
    ensures AllPossible(defs, |b|, Betrayal(i, b)) && StopsOnly(defs, Betrayal(i, b), {i})
    ensures AllPossible(defs, |b|, Writes(b, 0) + [Read(i)]) && AllPossible(defs, |b|, [Stop(i)] + (Writes(b, 0) + [Read(i)]))
  {
    WritesPossible(defs, b, 0);
  }

  lemma ToldAfterRead(defs: seq<Def>, c: Cache, i: nat, rest: seq<Op>)
    requires Fits(defs, c) && i < |defs| && defs[i].lazy && AllPossible(defs, |c.data|, rest)
    ensures AllPossible(defs, |c.data|, [Read(i)] + rest)
    ensures Told(defs, c, [Read(i)] + rest) == [Next(defs, c, Read(i)).memos[i].value] + Told(defs, Next(defs, c, Read(i)), rest)
    ensures Answers(defs, c.data, [Read(i)] + rest) == [Value(defs, c.data, i)] + Answers(defs, c.data, rest)
  {
    assert ([Read(i)] + rest)[1..] == rest;
  }

  lemma ToldAfterStop(defs: seq<Def>, c: Cache, i: nat, rest: seq<Op>)
    requires Fits(defs, c) && i < |defs| && AllPossible(defs, |c.data|, rest)
    ensures AllPossible(defs, |c.data|, [Stop(i)] + rest)
    ensures Told(defs, c, [Stop(i)] + rest) == Told(defs, Next(defs, c, Stop(i)), rest)
    ensures Answers(defs, c.data, [Stop(i)] + rest) == Answers(defs, c.data, rest)
  {
    assert ([Stop(i)] + rest)[1..] == rest;
    assert [] + Told(defs, Next(defs, c, Stop(i)), rest) == Told(defs, Next(defs, c, Stop(i)), rest);
  }

  lemma BetrayalShows(defs: seq<Def>, a: seq<int>, b: seq<int>, i: nat)
    requires Acyclic(defs, |a|) && |a| == |b| && i < |defs| && defs[i].lazy
    ensures AllPossible(defs, |a|, Betrayal(i, b)) && StopsOnly(defs, Betrayal(i, b), {i})
    ensures Told(defs, Cache(a, Begin(defs)), Betrayal(i, b)) == [Value(defs, a, i), Value(defs, a, i)]
    ensures Answers(defs, a, Betrayal(i, b)) == [Value(defs, a, i), Value(defs, b, i)]
  {
    hide Told, Answers, Looked, Keys, AllPossible, Writes, Acyclic, StopsOnly;
    BetrayalPossible(defs, b, i);
    ReadThenStopped(defs, a, i);
    var c1 := Cache(a, Looked(defs, a, Begin(defs), i));
    var c2 := Cache(a, Stopped(c1.memos, i));
    var last := Writes(b, 0) + [Read(i)];
    StoppedStays(defs, c2, i, b, 0);
    ToldAfterStop(defs, c1, i, last);
    ToldAfterRead(defs, Cache(a, Begin(defs)), i, [Stop(i)] + last);
  }

  /** Sessions that stop no computed properties but these always answer as if nothing were
      cached. */
  ghost predicate NeverShows(defs: seq<Def>, keys: nat, stoppable: set<nat>)
    requires Acyclic(defs, keys)
  {
    forall data: seq<int>, ops: seq<Op> |
      |data| == keys && AllPossible(defs, keys, ops) && StopsOnly(defs, ops, stoppable)
    :: Told(defs, Cache(data, Begin(defs)), ops) == Answers(defs, data, ops)
  }

  /** Tearing down computed properties never shows, in any session with any getters, exactly
      if each of them has the same value on all data. */
  lemma NeverShowsExactlyIfConstant(defs: seq<Def>, keys: nat, stoppable: set<nat>)
    requires Acyclic(defs, keys)
    ensures NeverShows(defs, keys, stoppable) <==>
            forall i | i in stoppable && i < |defs| && defs[i].lazy :: Constant(defs, keys, i)
  {
    if forall i | i in stoppable && i < |defs| && defs[i].lazy :: Constant(defs, keys, i) {
      forall data: seq<int>, ops: seq<Op> | |data| == keys && AllPossible(defs, keys, ops) && StopsOnly(defs, ops, stoppable)
        ensures Told(defs, Cache(data, Begin(defs)), ops) == Answers(defs, data, ops)
      {
        HarmlessIsRight(defs, Cache(data, Begin(defs)), ops, stoppable);
      }
    }
    if NeverShows(defs, keys, stoppable) {
      forall i, a: seq<int>, b: seq<int> | i in stoppable && i < |defs| && defs[i].lazy && |a| == keys && |b| == keys
        ensures Value(defs, a, i) == Value(defs, b, i)
      {
        BetrayalShows(defs, a, b, i);
        assert [Value(defs, a, i), Value(defs, a, i)][1] == [Value(defs, a, i), Value(defs, b, i)][1];
      }
    }
  }

  /** A computed property that copies a data property. */
  function Copying(): seq<Def> {
    [Def(ReadData(0, v => Return(v)), 0, 1, true)]
  }

  /** Torn down after its first read, it goes on answering 0 when the property has become 1. */
  lemma StoppedPropertyLies()
    ensures Acyclic(Copying(), 1) && AllPossible(Copying(), 1, Betrayal(0, [1]))
    ensures Betrayal(0, [1]) == [Read(0), Stop(0), Write(0, 1), Read(0)]
    ensures Told(Copying(), Cache([0], Begin(Copying())), Betrayal(0, [1])) == [0, 0]
    ensures Answers(Copying(), [0], Betrayal(0, [1])) == [0, 1]
  {
    var defs := Copying();
    var g := defs[0].getter;
    assert forall v :: Ranked(defs, 1, g.next(v), 0, 0);
    assert Ranked(defs, 1, g, 0, 1);
    BetrayalShows(defs, [0], [1], 0);
    assert Writes([1], 0) == [Write(0, 1)] + Writes([1], 1);
    assert Value(defs, [0], 0) == Eval(defs, [0], g.next(Stored([0], 0)), 0, 0) == 0;
    assert Value(defs, [1], 0) == Eval(defs, [1], g.next(Stored([1], 0)), 0, 0) == 1;
  }
}

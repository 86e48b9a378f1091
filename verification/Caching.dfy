/** What a session of writes, reads, watcher runs and teardowns does to the cached values of
    computed properties, and when the caching shows. */
module Caching {
  import opened Getters

  datatype Option<+T> = None | Some(value: T)

  // ------------------------------------------------------------ what is cached

  /** What a watcher remembers: the value, every data property that it rests on together with
      what was read there, and those of these properties that no longer notify the watcher. */
  datatype Memo = Memo(active: bool, dirty: bool, value: int, rest: set<(nat, int)>, deaf: set<nat>)

  function Keys(rest: set<(nat, int)>): set<nat> {
    set p | p in rest :: p.0
  }

  lemma KeysJoin(a: set<(nat, int)>, b: set<(nat, int)>)
    ensures Keys(a + b) == Keys(a) + Keys(b)
  {
    forall k | k in Keys(a) + Keys(b) ensures k in Keys(a + b) {
      var p :| p in a + b && p.0 == k;
    }
  }

  /** What was read is still there. */
  predicate Holds(data: seq<int>, rest: set<(nat, int)>) {
    forall p | p in rest :: p.0 < |data| && data[p.0] == p.1
  }

  /** A clean computed property. */
  predicate Clean(defs: seq<Def>, memos: seq<Memo>, i: nat)
    requires |memos| == |defs|
  {
    i < |defs| && defs[i].lazy && !memos[i].dirty
  }

  datatype Ran = Ran(value: int, memos: seq<Memo>, rest: set<(nat, int)>)

  /** Running a getter: dirty computed properties that it reads are evaluated, clean ones give
      their cached value. */
  ghost function Running(defs: seq<Def>, data: seq<int>, memos: seq<Memo>, g: Getter, r: nat, n: nat): (ran: Ran)
    requires Acyclic(defs, |data|) && Ranked(defs, |data|, g, r, n) && |memos| == |defs|
    ensures |ran.memos| == |memos|
    decreases r, n
  {
    match g
    case Return(v) => Ran(v, memos, {})
    case ReadData(key, next) =>
      var v := Stored(data, key);
      var later := Running(defs, data, memos, next(v), r, n - 1);
      later.(rest := {(key, v)} + later.rest)
    case ReadComputed(comp, next) =>
      var looked := Looked(defs, data, memos, comp);
      var later := Running(defs, data, looked, next(looked[comp].value), r, n - 1);
      later.(rest := looked[comp].rest + later.rest)
  }

  /** Reading a computed property. */
  ghost function Looked(defs: seq<Def>, data: seq<int>, memos: seq<Memo>, i: nat): (looked: seq<Memo>)
    requires Acyclic(defs, |data|) && i < |defs| && |memos| == |defs|
    ensures |looked| == |memos|
    decreases defs[i].rank, defs[i].steps + 2
  {
    if memos[i].dirty then Evaluated(defs, data, memos, i) else memos
  }

  /** A watcher that ceased to hear a property does not hear it again while it keeps reading it. */
  ghost function Evaluated(defs: seq<Def>, data: seq<int>, memos: seq<Memo>, i: nat): (evaluated: seq<Memo>)
    requires Acyclic(defs, |data|) && i < |defs| && |memos| == |defs|
    ensures |evaluated| == |memos| && !evaluated[i].dirty
    decreases defs[i].rank, defs[i].steps + 1
  {
    var ran := Running(defs, data, memos, defs[i].getter, defs[i].rank, defs[i].steps);
    var m := ran.memos[i];
    ran.memos[i := m.(dirty := false, value := ran.value, rest := ran.rest, deaf := m.deaf * Keys(ran.rest))]
  }

  // ------------------------------------------------------------ sessions

  /** What can happen to the runtime from outside. */
  datatype Op = Write(key: nat, value: int) | Read(comp: nat) | Rerun(watcher: nat) | Stop(watcher: nat)

  ghost predicate Possible(defs: seq<Def>, keys: nat, op: Op) {
    match op
    case Write(key, _) => key < keys
    case Read(comp) => comp < |defs| && defs[comp].lazy
    case Rerun(i) => i < |defs| && !defs[i].lazy
    case Stop(i) => i < |defs|
  }

  ghost predicate AllPossible(defs: seq<Def>, keys: nat, ops: seq<Op>) {
    forall op | op in ops :: Possible(defs, keys, op)
  }

  /** What the reads of a session return when nothing is ever cached. */
  ghost function Answers(defs: seq<Def>, data: seq<int>, ops: seq<Op>): seq<int>
    requires Acyclic(defs, |data|) && AllPossible(defs, |data|, ops)
    decreases |ops|
  {
    if ops == [] then []
    else
      assert ops[0] in ops && Possible(defs, |data|, ops[0]);
      match ops[0]
      case Write(key, value) => Answers(defs, data[key := value], ops[1..])
      case Read(comp) => [Value(defs, data, comp)] + Answers(defs, data, ops[1..])
      case _ => Answers(defs, data, ops[1..])
  }

  datatype Cache = Cache(data: seq<int>, memos: seq<Memo>)

  /** Before anything is evaluated: computed properties are dirty. */
  function Begin(defs: seq<Def>): seq<Memo> {
    seq(|defs|, i requires 0 <= i < |defs| => Memo(true, defs[i].lazy, 0, {}, {}))
  }

  predicate Hears(m: Memo, key: nat) {
    key in Keys(m.rest) && key !in m.deaf
  }

  function Notified(defs: seq<Def>, memos: seq<Memo>, key: nat): seq<Memo>
    requires |memos| == |defs|
  {
    seq(|memos|, i requires 0 <= i < |memos| =>
      memos[i].(dirty := memos[i].dirty || (defs[i].lazy && Hears(memos[i], key))))
  }

  function Written(defs: seq<Def>, c: Cache, key: nat, value: int): Cache
    requires |c.memos| == |defs| && key < |c.data|
  {
    if c.data[key] == value then c else Cache(c.data[key := value], Notified(defs, c.memos, key))
  }

  function Stopped(memos: seq<Memo>, i: nat): seq<Memo>
    requires i < |memos|
  {
    if memos[i].active then memos[i := memos[i].(active := false, deaf := Keys(memos[i].rest))] else memos
  }

  ghost function Rerunning(defs: seq<Def>, data: seq<int>, memos: seq<Memo>, i: nat): seq<Memo>
    requires Acyclic(defs, |data|) && i < |defs| && |memos| == |defs|
  {
    if memos[i].active then Evaluated(defs, data, memos, i) else memos
  }

  ghost predicate Fits(defs: seq<Def>, c: Cache) {
    Acyclic(defs, |c.data|) && |c.memos| == |defs|
  }

  ghost function Next(defs: seq<Def>, c: Cache, op: Op): (c': Cache)
    requires Fits(defs, c) && Possible(defs, |c.data|, op)
    ensures Fits(defs, c') && |c'.data| == |c.data|
  {
    match op
    case Write(key, value) => Written(defs, c, key, value)
    case Read(comp) => c.(memos := Looked(defs, c.data, c.memos, comp))
    case Rerun(i) => c.(memos := Rerunning(defs, c.data, c.memos, i))
    case Stop(i) => c.(memos := Stopped(c.memos, i))
  }

  /** What the reads of a session return. */
  ghost function Told(defs: seq<Def>, c: Cache, ops: seq<Op>): seq<int>
    requires Fits(defs, c) && AllPossible(defs, |c.data|, ops)
    decreases |ops|
  {
    if ops == [] then []
    else
      assert ops[0] in ops && Possible(defs, |c.data|, ops[0]);
      var c' := Next(defs, c, ops[0]);
      (if ops[0].Read? then [c'.memos[ops[0].comp].value] else []) + Told(defs, c', ops[1..])
  }

  ghost function After(defs: seq<Def>, c: Cache, ops: seq<Op>): (c': Cache)
    requires Fits(defs, c) && AllPossible(defs, |c.data|, ops)
    ensures Fits(defs, c') && |c'.data| == |c.data|
    decreases |ops|
  {
    if ops == [] then c
    else
      assert ops[0] in ops && Possible(defs, |c.data|, ops[0]);
      After(defs, Next(defs, c, ops[0]), ops[1..])
  }

  // ------------------------------------------------------------ values and what they rest on

  /** On this data each cached value is right if what it rests on holds, and then it rests on
      exactly what recomputation would read. */
  ghost predicate RightWhereHolds(defs: seq<Def>, data: seq<int>, memos: seq<Memo>)
    requires Acyclic(defs, |data|) && |memos| == |defs|
  {
    forall i: nat | Clean(defs, memos, i) && Holds(data, memos[i].rest) ::
      memos[i].value == Value(defs, data, i) && Keys(memos[i].rest) == Sources(defs, data, i)
  }

  /** The data at which the getter runs is `data`; what is said of its result is about `other`. */
  lemma {:induction false} RunningRight(
    defs: seq<Def>, data: seq<int>, other: seq<int>, memos: seq<Memo>, g: Getter, r: nat, n: nat)
    requires Acyclic(defs, |data|) && Ranked(defs, |data|, g, r, n) && |memos| == |defs| && |other| == |data|
    requires RightWhereHolds(defs, other, memos)
    ensures var ran := Running(defs, data, memos, g, r, n);
            RightWhereHolds(defs, other, ran.memos) &&
            (Holds(other, ran.rest) ==>
              ran.value == Eval(defs, other, g, r, n) && Keys(ran.rest) == Reads(defs, other, g, r, n))
    decreases r, n
  {
    match g
    case Return(v) =>
    case ReadData(key, next) =>
      var v := Stored(data, key);
      RunningRight(defs, data, other, memos, next(v), r, n - 1);
      var later := Running(defs, data, memos, next(v), r, n - 1);
      KeysJoin({(key, v)}, later.rest);
      assert Keys({(key, v)}) == {key};
      if Holds(other, {(key, v)} + later.rest) {
        assert (key, v) in {(key, v)} + later.rest;
      }
    case ReadComputed(comp, next) =>
      LookedRight(defs, data, other, memos, comp);
      var looked := Looked(defs, data, memos, comp);
      RunningRight(defs, data, other, looked, next(looked[comp].value), r, n - 1);
      var later := Running(defs, data, looked, next(looked[comp].value), r, n - 1);
      KeysJoin(looked[comp].rest, later.rest);
      if Holds(other, looked[comp].rest + later.rest) {
        assert Holds(other, looked[comp].rest) && Holds(other, later.rest);
        assert Clean(defs, looked, comp);
      }
  }

  lemma {:induction false} LookedRight(
    defs: seq<Def>, data: seq<int>, other: seq<int>, memos: seq<Memo>, i: nat)
    requires Acyclic(defs, |data|) && i < |defs| && |memos| == |defs| && |other| == |data|
    requires RightWhereHolds(defs, other, memos)
    ensures RightWhereHolds(defs, other, Looked(defs, data, memos, i)) && !Looked(defs, data, memos, i)[i].dirty
    decreases defs[i].rank, defs[i].steps + 2
  {
    if memos[i].dirty {
      EvaluatedRight(defs, data, other, memos, i);
    }
  }

  lemma {:induction false} EvaluatedRight(
    defs: seq<Def>, data: seq<int>, other: seq<int>, memos: seq<Memo>, i: nat)
    requires Acyclic(defs, |data|) && i < |defs| && |memos| == |defs| && |other| == |data|
    requires RightWhereHolds(defs, other, memos)
    ensures RightWhereHolds(defs, other, Evaluated(defs, data, memos, i)) && !Evaluated(defs, data, memos, i)[i].dirty
    decreases defs[i].rank, defs[i].steps + 1
  {
    RunningRight(defs, data, other, memos, defs[i].getter, defs[i].rank, defs[i].steps);
    var ran := Running(defs, data, memos, defs[i].getter, defs[i].rank, defs[i].steps);
    var memos' := Evaluated(defs, data, memos, i);
    forall j: nat | Clean(defs, memos', j) && Holds(other, memos'[j].rest)
      ensures memos'[j].value == Value(defs, other, j) && Keys(memos'[j].rest) == Sources(defs, other, j)
    {
      assert j != i ==> Clean(defs, ran.memos, j);
    }
  }

  /** What any cache keeps. */
  ghost predicate Recorded(defs: seq<Def>, keys: nat, memos: seq<Memo>) {
    Acyclic(defs, keys) && |memos| == |defs| &&
    forall other: seq<int> | |other| == keys :: RightWhereHolds(defs, other, memos)
  }

  lemma NextRecorded(defs: seq<Def>, c: Cache, op: Op)
    requires Fits(defs, c) && Possible(defs, |c.data|, op) && Recorded(defs, |c.data|, c.memos)
    ensures Recorded(defs, |c.data|, Next(defs, c, op).memos)
  {
    forall other: seq<int> | |other| == |c.data| ensures RightWhereHolds(defs, other, Next(defs, c, op).memos) {
      match op
      case Read(comp) => LookedRight(defs, c.data, other, c.memos, comp);
      case Rerun(i) =>
        if c.memos[i].active {
          EvaluatedRight(defs, c.data, other, c.memos, i);
        }
      case _ =>
        var memos' := Next(defs, c, op).memos;
        forall j: nat | Clean(defs, memos', j) ensures Clean(defs, c.memos, j) && memos'[j].value == c.memos[j].value &&
                                                      memos'[j].rest == c.memos[j].rest
        {
        }
    }
  }

  /** At each read of the session, what the value read rests on still holds. */
  ghost predicate NoneOutdated(defs: seq<Def>, c: Cache, ops: seq<Op>)
    requires Fits(defs, c) && AllPossible(defs, |c.data|, ops)
    decreases |ops|
  {
    ops == [] ||
    (assert ops[0] in ops && Possible(defs, |c.data|, ops[0]);
     var c' := Next(defs, c, ops[0]);
     (ops[0].Read? ==> Holds(c.data, c'.memos[ops[0].comp].rest)) && NoneOutdated(defs, c', ops[1..]))
  }

  /** A session in which no outdated value is read answers as if nothing were cached. */
  lemma {:induction false} RightUnlessOutdated(defs: seq<Def>, c: Cache, ops: seq<Op>)
    requires Fits(defs, c) && AllPossible(defs, |c.data|, ops) && Recorded(defs, |c.data|, c.memos)
    requires NoneOutdated(defs, c, ops)
    ensures Told(defs, c, ops) == Answers(defs, c.data, ops)
    decreases |ops|
  {
    if ops != [] {
      assert ops[0] in ops;
      var c' := Next(defs, c, ops[0]);
      NextRecorded(defs, c, ops[0]);
      RightUnlessOutdated(defs, c', ops[1..]);
      match ops[0]
      case Read(comp) =>
        LookedRight(defs, c.data, c.data, c.memos, comp);
        assert Clean(defs, c'.memos, comp);
      case Write(key, value) => assert c'.data == c.data[key := value];
      case _ =>
    }
  }

  // ------------------------------------------------------------ getters that tell their reads apart

  /** What the getter returns when its reads have these results. */
  function Answered(g: Getter, results: seq<int>): Option<int>
    decreases |results|
  {
    match g
    case Return(v) => if results == [] then Some(v) else None
    case ReadData(_, next) => if results == [] then None else Answered(next(results[0]), results[1..])
    case ReadComputed(_, next) => if results == [] then None else Answered(next(results[0]), results[1..])
  }

  /** Whatever was read can be told from the result. */
  ghost predicate Tells(g: Getter) {
    forall a, b | Answered(g, a).Some? && Answered(g, a) == Answered(g, b) :: a == b
  }

  ghost predicate AllTell(defs: seq<Def>) {
    forall d | d in defs :: Tells(d.getter)
  }

  function Continued(g: Getter, v: int): Getter
    requires !g.Return?
  {
    match g case ReadData(_, next) => next(v) case ReadComputed(_, next) => next(v)
  }

  lemma AnsweredMore(g: Getter, v: int, results: seq<int>)
    requires !g.Return?
    ensures Answered(g, [v] + results) == Answered(Continued(g, v), results)
  {
    assert ([v] + results)[1..] == results;
  }

  lemma TellsMore(g: Getter, v: int)
    requires Tells(g) && !g.Return?
    ensures Tells(Continued(g, v))
  {
    var next := Continued(g, v);
    forall a, b | Answered(next, a).Some? && Answered(next, a) == Answered(next, b) ensures a == b {
      AnsweredMore(g, v, a);
      AnsweredMore(g, v, b);
      assert ([v] + a)[1..] == a && ([v] + b)[1..] == b;
    }
  }

  /** Different first results lead to different values. */
  lemma TellsFirst(g: Getter, v: int, a: seq<int>, w: int, b: seq<int>)
    requires Tells(g) && !g.Return?
    requires Answered(Continued(g, v), a).Some? && Answered(Continued(g, v), a) == Answered(Continued(g, w), b)
    ensures v == w
  {
    AnsweredMore(g, v, a);
    AnsweredMore(g, w, b);
    assert ([v] + a)[0] == v && ([w] + b)[0] == w;
  }

  lemma {:induction false} EvalAnswers(defs: seq<Def>, data: seq<int>, g: Getter, r: nat, n: nat) returns (results: seq<int>)
    requires Acyclic(defs, |data|) && Ranked(defs, |data|, g, r, n)
    ensures Answered(g, results) == Some(Eval(defs, data, g, r, n))
    decreases n
  {
    match g
    case Return(v) => results := [];
    case ReadData(key, next) =>
      var v := Stored(data, key);
      var rest := EvalAnswers(defs, data, next(v), r, n - 1);
      results := [v] + rest;
      AnsweredMore(g, v, rest);
    case ReadComputed(comp, next) =>
      var v := Value(defs, data, comp);
      var rest := EvalAnswers(defs, data, next(v), r, n - 1);
      results := [v] + rest;
      AnsweredMore(g, v, rest);
  }

  lemma {:induction false} RunningAnswers(defs: seq<Def>, data: seq<int>, memos: seq<Memo>, g: Getter, r: nat, n: nat)
    returns (results: seq<int>)
    requires Acyclic(defs, |data|) && Ranked(defs, |data|, g, r, n) && |memos| == |defs|
    ensures Answered(g, results) == Some(Running(defs, data, memos, g, r, n).value)
    decreases n
  {
    match g
    case Return(v) => results := [];
    case ReadData(key, next) =>
      var v := Stored(data, key);
      var rest := RunningAnswers(defs, data, memos, next(v), r, n - 1);
      results := [v] + rest;
      AnsweredMore(g, v, rest);
    case ReadComputed(comp, next) =>
      var looked := Looked(defs, data, memos, comp);
      var v := looked[comp].value;
      var rest := RunningAnswers(defs, data, looked, next(v), r, n - 1);
      results := [v] + rest;
      AnsweredMore(g, v, rest);
  }

  /** On this data each cached value is right only if what it rests on holds. */
  ghost predicate HoldsWhereRight(defs: seq<Def>, data: seq<int>, memos: seq<Memo>)
    requires Acyclic(defs, |data|) && |memos| == |defs|
  {
    forall i: nat | Clean(defs, memos, i) && memos[i].value == Value(defs, data, i) :: Holds(data, memos[i].rest)
  }

  lemma {:induction false} RunningTight(
    defs: seq<Def>, data: seq<int>, other: seq<int>, memos: seq<Memo>, g: Getter, r: nat, n: nat)
    requires Acyclic(defs, |data|) && Ranked(defs, |data|, g, r, n) && |memos| == |defs| && |other| == |data|
    requires HoldsWhereRight(defs, other, memos) && AllTell(defs) && Tells(g)
    ensures var ran := Running(defs, data, memos, g, r, n);
            HoldsWhereRight(defs, other, ran.memos) &&
            (ran.value == Eval(defs, other, g, r, n) ==> Holds(other, ran.rest))
    decreases r, n
  {
    match g
    case Return(v) =>
    case ReadData(key, next) =>
      var v, w := Stored(data, key), Stored(other, key);
      TellsMore(g, v);
      RunningTight(defs, data, other, memos, next(v), r, n - 1);
      if Running(defs, data, memos, g, r, n).value == Eval(defs, other, g, r, n) {
        var a := RunningAnswers(defs, data, memos, next(v), r, n - 1);
        var b := EvalAnswers(defs, other, next(w), r, n - 1);
        TellsFirst(g, v, a, w, b);
      }
    case ReadComputed(comp, next) =>
      LookedTight(defs, data, other, memos, comp);
      var looked := Looked(defs, data, memos, comp);
      var v, w := looked[comp].value, Value(defs, other, comp);
      TellsMore(g, v);
      RunningTight(defs, data, other, looked, next(v), r, n - 1);
      if Running(defs, data, memos, g, r, n).value == Eval(defs, other, g, r, n) {
        var a := RunningAnswers(defs, data, looked, next(v), r, n - 1);
        var b := EvalAnswers(defs, other, next(w), r, n - 1);
        TellsFirst(g, v, a, w, b);
        assert Clean(defs, looked, comp);
      }
  }

  lemma {:induction false} LookedTight(
    defs: seq<Def>, data: seq<int>, other: seq<int>, memos: seq<Memo>, i: nat)
    requires Acyclic(defs, |data|) && i < |defs| && |memos| == |defs| && |other| == |data|
    requires HoldsWhereRight(defs, other, memos) && AllTell(defs)
    ensures HoldsWhereRight(defs, other, Looked(defs, data, memos, i)) && !Looked(defs, data, memos, i)[i].dirty
    decreases defs[i].rank, defs[i].steps + 2
  {
    if memos[i].dirty {
      EvaluatedTight(defs, data, other, memos, i);
    }
  }

  lemma {:induction false} EvaluatedTight(
    defs: seq<Def>, data: seq<int>, other: seq<int>, memos: seq<Memo>, i: nat)
    requires Acyclic(defs, |data|) && i < |defs| && |memos| == |defs| && |other| == |data|
    requires HoldsWhereRight(defs, other, memos) && AllTell(defs)
    ensures HoldsWhereRight(defs, other, Evaluated(defs, data, memos, i)) && !Evaluated(defs, data, memos, i)[i].dirty
    decreases defs[i].rank, defs[i].steps + 1
  {
    assert defs[i] in defs;
    RunningTight(defs, data, other, memos, defs[i].getter, defs[i].rank, defs[i].steps);
    var ran := Running(defs, data, memos, defs[i].getter, defs[i].rank, defs[i].steps);
    var memos' := Evaluated(defs, data, memos, i);
    forall j: nat | Clean(defs, memos', j) && memos'[j].value == Value(defs, other, j)
      ensures Holds(other, memos'[j].rest)
    {
      assert j != i ==> Clean(defs, ran.memos, j);
    }
  }

  ghost predicate Tight(defs: seq<Def>, keys: nat, memos: seq<Memo>) {
    Acyclic(defs, keys) && |memos| == |defs| &&
    forall other: seq<int> | |other| == keys :: HoldsWhereRight(defs, other, memos)
  }

  lemma NextTight(defs: seq<Def>, c: Cache, op: Op)
    requires Fits(defs, c) && Possible(defs, |c.data|, op) && Tight(defs, |c.data|, c.memos) && AllTell(defs)
    ensures Tight(defs, |c.data|, Next(defs, c, op).memos)
  {
    forall other: seq<int> | |other| == |c.data| ensures HoldsWhereRight(defs, other, Next(defs, c, op).memos) {
      match op
      case Read(comp) => LookedTight(defs, c.data, other, c.memos, comp);
      case Rerun(i) =>
        if c.memos[i].active {
          EvaluatedTight(defs, c.data, other, c.memos, i);
        }
      case _ =>
        var memos' := Next(defs, c, op).memos;
        forall j: nat | Clean(defs, memos', j) ensures Clean(defs, c.memos, j) && memos'[j].value == c.memos[j].value &&
                                                      memos'[j].rest == c.memos[j].rest
        {
        }
    }
  }

  /** When results tell what was read, any session answers as if nothing were cached exactly
      if no read meets a value that rests on something that no longer holds. */
  lemma {:induction false} RightExactlyUnlessOutdated(defs: seq<Def>, c: Cache, ops: seq<Op>)
    requires Fits(defs, c) && AllPossible(defs, |c.data|, ops)
    requires Recorded(defs, |c.data|, c.memos) && Tight(defs, |c.data|, c.memos) && AllTell(defs)
    ensures Told(defs, c, ops) == Answers(defs, c.data, ops) <==> NoneOutdated(defs, c, ops)
    decreases |ops|
  {
    if NoneOutdated(defs, c, ops) {
      RightUnlessOutdated(defs, c, ops);
    } else {
      assert ops[0] in ops;
      var c' := Next(defs, c, ops[0]);
      NextRecorded(defs, c, ops[0]);
      NextTight(defs, c, ops[0]);
      RightExactlyUnlessOutdated(defs, c', ops[1..]);
      match ops[0]
      case Read(comp) =>
        LookedTight(defs, c.data, c.data, c.memos, comp);
        assert Clean(defs, c'.memos, comp);
        var told, answers := Told(defs, c', ops[1..]), Answers(defs, c.data, ops[1..]);
        assert ([c'.memos[comp].value] + told)[1..] == told && ([Value(defs, c.data, comp)] + answers)[1..] == answers;
        assert ([c'.memos[comp].value] + told)[0] == c'.memos[comp].value;
        assert ([Value(defs, c.data, comp)] + answers)[0] == Value(defs, c.data, comp);
      case Write(key, value) => assert c'.data == c.data[key := value];
      case _ =>
    }
  }

  /** So it is for every session from the beginning, with any teardowns. */
  lemma ShowsExactlyWhenOutdated(defs: seq<Def>, data: seq<int>, ops: seq<Op>)
    requires Acyclic(defs, |data|) && AllPossible(defs, |data|, ops) && AllTell(defs)
    ensures var begin := Cache(data, Begin(defs));
            Told(defs, begin, ops) == Answers(defs, data, ops) <==> NoneOutdated(defs, begin, ops)
  {
    RightExactlyUnlessOutdated(defs, Cache(data, Begin(defs)), ops);
  }

  // ------------------------------------------------------------ when nothing is outdated

  /** Everything that cached values rest on holds. */
  ghost predicate Current(defs: seq<Def>, c: Cache)
    requires |c.memos| == |defs|
  {
    forall i: nat | Clean(defs, c.memos, i) :: Holds(c.data, c.memos[i].rest)
  }

  lemma {:induction false} RunningCurrent(defs: seq<Def>, data: seq<int>, memos: seq<Memo>, g: Getter, r: nat, n: nat)
    requires Acyclic(defs, |data|) && Ranked(defs, |data|, g, r, n) && |memos| == |defs|
    requires Current(defs, Cache(data, memos))
    ensures var ran := Running(defs, data, memos, g, r, n);
            Current(defs, Cache(data, ran.memos)) && Holds(data, ran.rest)
    decreases r, n
  {
    match g
    case Return(v) =>
    case ReadData(key, next) => RunningCurrent(defs, data, memos, next(Stored(data, key)), r, n - 1);
    case ReadComputed(comp, next) =>
      LookedCurrent(defs, data, memos, comp);
      var looked := Looked(defs, data, memos, comp);
      assert Clean(defs, looked, comp);
      RunningCurrent(defs, data, looked, next(looked[comp].value), r, n - 1);
  }

  lemma {:induction false} LookedCurrent(defs: seq<Def>, data: seq<int>, memos: seq<Memo>, i: nat)
    requires Acyclic(defs, |data|) && i < |defs| && |memos| == |defs| && Current(defs, Cache(data, memos))
    ensures Current(defs, Cache(data, Looked(defs, data, memos, i))) && !Looked(defs, data, memos, i)[i].dirty
    decreases defs[i].rank, defs[i].steps + 2
  {
    if memos[i].dirty {
      EvaluatedCurrent(defs, data, memos, i);
    }
  }

  lemma {:induction false} EvaluatedCurrent(defs: seq<Def>, data: seq<int>, memos: seq<Memo>, i: nat)
    requires Acyclic(defs, |data|) && i < |defs| && |memos| == |defs| && Current(defs, Cache(data, memos))
    ensures Current(defs, Cache(data, Evaluated(defs, data, memos, i))) && !Evaluated(defs, data, memos, i)[i].dirty
    decreases defs[i].rank, defs[i].steps + 1
  {
    RunningCurrent(defs, data, memos, defs[i].getter, defs[i].rank, defs[i].steps);
    var ran := Running(defs, data, memos, defs[i].getter, defs[i].rank, defs[i].steps);
    var memos' := Evaluated(defs, data, memos, i);
    forall j: nat | Clean(defs, memos', j) ensures Holds(data, memos'[j].rest) {
      assert j != i ==> Clean(defs, ran.memos, j);
    }
  }

  /** No property that a stopped computed property rests on without hearing it is written to. */
  ghost predicate Heeded(defs: seq<Def>, c: Cache, ops: seq<Op>)
    requires Fits(defs, c) && AllPossible(defs, |c.data|, ops)
    decreases |ops|
  {
    ops == [] ||
    (assert ops[0] in ops && Possible(defs, |c.data|, ops[0]);
     (ops[0].Write? && c.data[ops[0].key] != ops[0].value ==> AllHear(defs, c, ops[0].key)) &&
     Heeded(defs, Next(defs, c, ops[0]), ops[1..]))
  }

  ghost predicate AllHear(defs: seq<Def>, c: Cache, key: nat)
    requires |c.memos| == |defs|
  {
    forall i: nat | Clean(defs, c.memos, i) && key in Keys(c.memos[i].rest) :: key !in c.memos[i].deaf
  }

  lemma NextCurrent(defs: seq<Def>, c: Cache, op: Op)
    requires Fits(defs, c) && Possible(defs, |c.data|, op) && Current(defs, c)
    requires op.Write? && c.data[op.key] != op.value ==> AllHear(defs, c, op.key)
    ensures Current(defs, Next(defs, c, op))
  {
    var c' := Next(defs, c, op);
    match op
    case Read(comp) => LookedCurrent(defs, c.data, c.memos, comp);
    case Rerun(i) =>
      if c.memos[i].active {
        EvaluatedCurrent(defs, c.data, c.memos, i);
      }
    case Write(key, value) =>
      forall j: nat | Clean(defs, c'.memos, j) ensures Holds(c'.data, c'.memos[j].rest) {
        assert Clean(defs, c.memos, j) && Holds(c.data, c.memos[j].rest);
        if c.data[key] != value {
          assert key !in Keys(c.memos[j].rest);
          assert forall p | p in c.memos[j].rest :: p.0 in Keys(c.memos[j].rest);
        }
      }
    case Stop(i) =>
      forall j: nat | Clean(defs, c'.memos, j) ensures Holds(c'.data, c'.memos[j].rest) {
        assert Clean(defs, c.memos, j);
      }
  }

  lemma {:induction false} HeededIsNotOutdated(defs: seq<Def>, c: Cache, ops: seq<Op>)
    requires Fits(defs, c) && AllPossible(defs, |c.data|, ops) && Current(defs, c) && Heeded(defs, c, ops)
    ensures NoneOutdated(defs, c, ops)
    decreases |ops|
  {
    if ops != [] {
      assert ops[0] in ops && Possible(defs, |c.data|, ops[0]);
      NextCurrent(defs, c, ops[0]);
      HeededIsNotOutdated(defs, Next(defs, c, ops[0]), ops[1..]);
      if ops[0].Read? {
        LookedCurrent(defs, c.data, c.memos, ops[0].comp);
        assert Clean(defs, Next(defs, c, ops[0]).memos, ops[0].comp);
      }
    }
  }

  // ------------------------------------------------------------ sessions that stop no computed property

  ghost predicate StopsOnly(defs: seq<Def>, ops: seq<Op>, stoppable: set<nat>) {
    forall op | op in ops && op.Stop? && op.watcher < |defs| && defs[op.watcher].lazy :: op.watcher in stoppable
  }

  /** No watcher has become deaf to more. */
  ghost predicate StillHear(memos: seq<Memo>, memos': seq<Memo>) {
    |memos'| == |memos| && forall i | 0 <= i < |memos| :: memos'[i].deaf <= memos[i].deaf && memos'[i].active == memos[i].active
  }

  lemma {:induction false} RunningHears(defs: seq<Def>, data: seq<int>, memos: seq<Memo>, g: Getter, r: nat, n: nat)
    requires Acyclic(defs, |data|) && Ranked(defs, |data|, g, r, n) && |memos| == |defs|
    ensures StillHear(memos, Running(defs, data, memos, g, r, n).memos)
    decreases r, n
  {
    match g
    case Return(v) =>
    case ReadData(key, next) => RunningHears(defs, data, memos, next(Stored(data, key)), r, n - 1);
    case ReadComputed(comp, next) =>
      LookedHears(defs, data, memos, comp);
      var looked := Looked(defs, data, memos, comp);
      RunningHears(defs, data, looked, next(looked[comp].value), r, n - 1);
  }

  lemma {:induction false} LookedHears(defs: seq<Def>, data: seq<int>, memos: seq<Memo>, i: nat)
    requires Acyclic(defs, |data|) && i < |defs| && |memos| == |defs|
    ensures StillHear(memos, Looked(defs, data, memos, i)) && StillHear(memos, Evaluated(defs, data, memos, i))
    decreases defs[i].rank, defs[i].steps + 1
  {
    RunningHears(defs, data, memos, defs[i].getter, defs[i].rank, defs[i].steps);
  }

  ghost predicate Deaf(defs: seq<Def>, memos: seq<Memo>, i: nat)
    requires |memos| == |defs|
  {
    i < |defs| && defs[i].lazy && memos[i].deaf != {}
  }

  lemma NextDeaf(defs: seq<Def>, c: Cache, op: Op, i: nat)
    requires Fits(defs, c) && Possible(defs, |c.data|, op) && Deaf(defs, Next(defs, c, op).memos, i)
    ensures Deaf(defs, c.memos, i) || op == Stop(i)
  {
    match op
    case Read(comp) => LookedHears(defs, c.data, c.memos, comp);
    case Rerun(j) => LookedHears(defs, c.data, c.memos, j);
    case _ =>
  }

  lemma {:induction false} UnstoppedIsHeeded(defs: seq<Def>, c: Cache, ops: seq<Op>)
    requires Fits(defs, c) && AllPossible(defs, |c.data|, ops) && StopsOnly(defs, ops, {})
    requires forall i: nat :: !Deaf(defs, c.memos, i)
    ensures Heeded(defs, c, ops)
    decreases |ops|
  {
    if ops != [] {
      assert ops[0] in ops && Possible(defs, |c.data|, ops[0]);
      forall i: nat ensures !Deaf(defs, Next(defs, c, ops[0]).memos, i) {
        if Deaf(defs, Next(defs, c, ops[0]).memos, i) {
          NextDeaf(defs, c, ops[0], i);
        }
      }
      UnstoppedIsHeeded(defs, Next(defs, c, ops[0]), ops[1..]);
      forall i: nat | Clean(defs, c.memos, i) ensures c.memos[i].deaf == {} {
        assert !Deaf(defs, c.memos, i);
      }
    }
  }
}

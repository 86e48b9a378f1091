/** Pure getters of reactive data: what a computed property or a render function
    reads, in order, and the value it returns. */
module Getters {

  /** A getter is any deterministic program that reads data properties and computed
      properties one at a time and goes on with what it read. */
  datatype Getter =
    | Return(value: int)
    | ReadData(key: nat, next: int -> Getter)
    | ReadComputed(comp: nat, next: int -> Getter)

  /** A watched getter, with a bound on its reads; it may read computed properties of
      lower rank only. */
  datatype Def = Def(getter: Getter, rank: nat, steps: nat, lazy: bool)

  /** `g` makes at most `n` reads, of existing data and of computed properties of rank
      below `r`, whatever values it is given. */
  ghost predicate Ranked(defs: seq<Def>, keys: nat, g: Getter, r: nat, n: nat)
    decreases n
  {
    match g
    case Return(_) => true
    case ReadData(key, next) =>
      n > 0 && key < keys && forall v {:trigger next(v)} :: Ranked(defs, keys, next(v), r, n - 1)
    case ReadComputed(comp, next) =>
      n > 0 && comp < |defs| && defs[comp].lazy && defs[comp].rank < r &&
      forall v {:trigger next(v)} :: Ranked(defs, keys, next(v), r, n - 1)
  }

  function Stored(data: seq<int>, key: nat): int
    requires key < |data|
  {
    data[key]
  }

  ghost predicate Acyclic(defs: seq<Def>, keys: nat) {
    forall i :: 0 <= i < |defs| ==> Ranked(defs, keys, defs[i].getter, defs[i].rank, defs[i].steps)
  }

  /** The value of `g` on the data, recomputing every computed property it reads. */
  ghost function Eval(defs: seq<Def>, data: seq<int>, g: Getter, r: nat, n: nat): int
    requires Acyclic(defs, |data|) && Ranked(defs, |data|, g, r, n)
    decreases r, n
  {
    match g
    case Return(v) => v
    case ReadData(key, next) => Eval(defs, data, next(Stored(data, key)), r, n - 1)
    case ReadComputed(comp, next) => Eval(defs, data, next(Value(defs, data, comp)), r, n - 1)
  }

  /** The value of a watched getter on the data. */
  ghost function Value(defs: seq<Def>, data: seq<int>, i: nat): int
    requires Acyclic(defs, |data|) && i < |defs|
    decreases defs[i].rank, defs[i].steps + 1
  {
    Eval(defs, data, defs[i].getter, defs[i].rank, defs[i].steps)
  }

  /** The data properties that evaluation reads, also inside computed properties. */
  ghost function Reads(defs: seq<Def>, data: seq<int>, g: Getter, r: nat, n: nat): set<nat>
    requires Acyclic(defs, |data|) && Ranked(defs, |data|, g, r, n)
    decreases r, n
  {
    match g
    case Return(v) => {}
    case ReadData(key, next) => {key} + Reads(defs, data, next(Stored(data, key)), r, n - 1)
    case ReadComputed(comp, next) =>
      Sources(defs, data, comp) + Reads(defs, data, next(Value(defs, data, comp)), r, n - 1)
  }

  /** The data properties that a watched getter depends on, on this data. */
  ghost function Sources(defs: seq<Def>, data: seq<int>, i: nat): set<nat>
    requires Acyclic(defs, |data|) && i < |defs|
    decreases defs[i].rank, defs[i].steps + 1
  {
    Reads(defs, data, defs[i].getter, defs[i].rank, defs[i].steps)
  }

  /** A write to data that a getter did not read changes neither its value nor what it reads. */
  lemma {:induction false} UnreadDataIsIrrelevant(
    defs: seq<Def>, data: seq<int>, data': seq<int>, g: Getter, r: nat, n: nat)
    requires Acyclic(defs, |data|) && Ranked(defs, |data|, g, r, n) && |data'| == |data|
    requires forall k :: k in Reads(defs, data, g, r, n) && k < |data| ==> data'[k] == data[k]
    ensures Eval(defs, data', g, r, n) == Eval(defs, data, g, r, n)
    ensures Reads(defs, data', g, r, n) == Reads(defs, data, g, r, n)
    decreases r, n
  {
    match g
    case Return(v) =>
    case ReadData(key, next) =>
      UnreadDataIsIrrelevant(defs, data, data', next(Stored(data, key)), r, n - 1);
    case ReadComputed(comp, next) =>
      assert Sources(defs, data, comp) <= Reads(defs, data, g, r, n);
      UnreadDataIsIrrelevant(defs, data, data', defs[comp].getter, defs[comp].rank, defs[comp].steps);
      UnreadDataIsIrrelevant(defs, data, data', next(Value(defs, data, comp)), r, n - 1);
  }

  lemma {:induction false} ReadsExist(defs: seq<Def>, data: seq<int>, g: Getter, r: nat, n: nat)
    requires Acyclic(defs, |data|) && Ranked(defs, |data|, g, r, n)
    ensures forall k :: k in Reads(defs, data, g, r, n) ==> k < |data|
    decreases r, n
  {
    match g
    case Return(v) =>
    case ReadData(key, next) =>
      ReadsExist(defs, data, next(Stored(data, key)), r, n - 1);
    case ReadComputed(comp, next) =>
      ReadsExist(defs, data, defs[comp].getter, defs[comp].rank, defs[comp].steps);
      ReadsExist(defs, data, next(Value(defs, data, comp)), r, n - 1);
      assert Sources(defs, data, comp) == Reads(defs, data, defs[comp].getter, defs[comp].rank, defs[comp].steps);
      assert Reads(defs, data, g, r, n) ==
        Sources(defs, data, comp) + Reads(defs, data, next(Value(defs, data, comp)), r, n - 1);
  }
}

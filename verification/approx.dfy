/**
  The approximate comparison of parsed JSON outputs: `loose` normalises a
  value (every float rounded to one decimal, a zero result made +0.0) and
  `assertClose` compares two loosened values with Python's `==`.
 */
module Approx {

  /** A Python float: a finite real, or the negative zero that Python keeps apart from 0.0. */
  datatype Float = Finite(r: real) | NegativeZero

  function FloatValue(f: Float): real {
    match f
    case Finite(r) => r
    case NegativeZero => 0.0
  }

  /** Python's `f == -0.0`, which holds for both zeros. */
  predicate IsZero(f: Float) {
    FloatValue(f) == 0.0
  }

  /** What json.load and Python build: lists, tuples, dicts (entries in insertion order), floats and other scalars. */
  datatype Value =
    | List(items: seq<Value>)
    | Tuple(items: seq<Value>)
    | Dict(entries: seq<(string, Value)>)
    | Float(f: Float)
    | Int(i: int)
    | Bool(b: bool)
    | Str(s: string)
    | Null

  /** `round(x, 1)`: its decimal behaviour is floating-point numerics and stays abstract. */
  type Rounding = Float -> Float

  /** `loose`: floats are rounded, everything else is rebuilt around its loosened parts. */
  function Loose(v: Value, round: Rounding): Value {
    match v
    case List(items) => List(seq(|items|, i requires 0 <= i < |items| => Loose(items[i], round)))
    case Float(x) =>
      var f := round(x);
      Float(if IsZero(f) then Finite(0.0) else f)
    case Dict(entries) =>
      Dict(seq(|entries|, i requires 0 <= i < |entries| => (entries[i].0, Loose(entries[i].1, round))))
    case Tuple(items) => Tuple(seq(|items|, i requires 0 <= i < |items| => Loose(items[i], round)))
    case _ => v
  }

  /** int, bool and float compare by numeric value in Python. */
  predicate IsNumber(v: Value) {
    v.Int? || v.Bool? || v.Float?
  }

  function Number(v: Value): real
    requires IsNumber(v)
  {
    match v
    case Int(i) => i as real
    case Bool(b) => if b then 1.0 else 0.0
    case Float(f) => FloatValue(f)
  }

  function Keys(entries: seq<(string, Value)>): set<string> {
    set i | 0 <= i < |entries| :: entries[i].0
  }

  /** The keys of a dict are distinct, as they are in every dict Python builds. */
  predicate UniqueKeys(entries: seq<(string, Value)>) {
    forall i, j :: 0 <= i < |entries| && 0 <= j < |entries| && entries[i].0 == entries[j].0 ==> i == j
  }

  /** Every dict inside `v` has distinct keys: a value Python or json.load can build. */
  predicate WellFormed(v: Value) {
    match v
    case List(xs) => forall i :: 0 <= i < |xs| ==> WellFormed(xs[i])
    case Tuple(xs) => forall i :: 0 <= i < |xs| ==> WellFormed(xs[i])
    case Dict(e) => UniqueKeys(e) && forall i :: 0 <= i < |e| ==> WellFormed(e[i].1)
    case _ => true
  }

  /**
    Python's `==`: lists and tuples element by element (a list never equals a
    tuple), dicts by key set and value per key whatever the key order,
    numbers by value across int, bool and float.
   */
  predicate PyEq(a: Value, b: Value) {
    if a.List? && b.List? then
      |a.items| == |b.items| && forall i :: 0 <= i < |a.items| ==> PyEq(a.items[i], b.items[i])
    else if a.Tuple? && b.Tuple? then
      |a.items| == |b.items| && forall i :: 0 <= i < |a.items| ==> PyEq(a.items[i], b.items[i])
    else if a.Dict? && b.Dict? then
      && Keys(a.entries) == Keys(b.entries)
      && forall i, j :: 0 <= i < |a.entries| && 0 <= j < |b.entries| && a.entries[i].0 == b.entries[j].0 ==>
           PyEq(a.entries[i].1, b.entries[j].1)
    else if IsNumber(a) && IsNumber(b) then Number(a) == Number(b)
    else if a.Str? && b.Str? then a.s == b.s
    else a.Null? && b.Null?
  }

  /** `assertClose(a, b)` passes. */
  predicate Close(a: Value, b: Value, round: Rounding) {
    PyEq(Loose(a, round), Loose(b, round))
  }

  /** `w` has the shape of `v`: same containers, lengths, keys in the same order, floats where `v` has floats, every other scalar equal. */
  predicate SameShape(v: Value, w: Value) {
    match v
    case List(xs) =>
      w.List? && |w.items| == |xs| && forall i :: 0 <= i < |xs| ==> SameShape(xs[i], w.items[i])
    case Tuple(xs) =>
      w.Tuple? && |w.items| == |xs| && forall i :: 0 <= i < |xs| ==> SameShape(xs[i], w.items[i])
    case Dict(e) =>
      w.Dict? && |w.entries| == |e| &&
      forall i :: 0 <= i < |e| ==> w.entries[i].0 == e[i].0 && SameShape(e[i].1, w.entries[i].1)
    case Float(_) => w.Float?
    case _ => w == v
  }

  /** No float anywhere in `v` is a negative zero. */
  predicate NoNegativeZero(v: Value) {
    match v
    case List(xs) => forall i :: 0 <= i < |xs| ==> NoNegativeZero(xs[i])
    case Tuple(xs) => forall i :: 0 <= i < |xs| ==> NoNegativeZero(xs[i])
    case Dict(e) => forall i :: 0 <= i < |e| ==> NoNegativeZero(e[i].1)
    case Float(f) => f != NegativeZero
    case _ => true
  }

  /** loose keeps list length and order, dict keys and their order, tuple-ness, and every non-float scalar. */
  lemma {:induction false} LooseKeepsShape(v: Value, round: Rounding)
    ensures SameShape(v, Loose(v, round))
  {
    match v
    case List(xs) =>
      forall i | 0 <= i < |xs| ensures SameShape(xs[i], Loose(v, round).items[i]) {
        LooseKeepsShape(xs[i], round);
      }
    case Tuple(xs) =>
      forall i | 0 <= i < |xs| ensures SameShape(xs[i], Loose(v, round).items[i]) {
        LooseKeepsShape(xs[i], round);
      }
    case Dict(e) =>
      forall i | 0 <= i < |e| ensures SameShape(e[i].1, Loose(v, round).entries[i].1) {
        LooseKeepsShape(e[i].1, round);
      }
    case _ =>
  }

  /** A loosened value holds no negative zero. */
  lemma {:induction false} LooseHasNoNegativeZero(v: Value, round: Rounding)
    ensures NoNegativeZero(Loose(v, round))
  {
    match v
    case List(xs) =>
      forall i | 0 <= i < |xs| ensures NoNegativeZero(Loose(v, round).items[i]) {
        LooseHasNoNegativeZero(xs[i], round);
      }
    case Tuple(xs) =>
      forall i | 0 <= i < |xs| ensures NoNegativeZero(Loose(v, round).items[i]) {
        LooseHasNoNegativeZero(xs[i], round);
      }
    case Dict(e) =>
      forall i | 0 <= i < |e| ensures NoNegativeZero(Loose(v, round).entries[i].1) {
        LooseHasNoNegativeZero(e[i].1, round);
      }
    case _ =>
  }

  /** A float is replaced by its rounding, a zero rounding by +0.0. */
  lemma LooseRoundsFloat(x: Float, round: Rounding)
    ensures Loose(Float(x), round).Float?
    ensures FloatValue(Loose(Float(x), round).f) == FloatValue(round(x))
    ensures Loose(Float(x), round).f != NegativeZero
    ensures !IsZero(round(x)) ==> Loose(Float(x), round).f == round(x)
  {
  }

  /** Two floats are close exactly when their roundings are equal. */
  lemma CloseFloats(x: Float, y: Float, round: Rounding)
    ensures Close(Float(x), Float(y), round) <==> FloatValue(round(x)) == FloatValue(round(y))
  {
  }

  lemma {:induction false} PyEqReflexive(v: Value)
    requires WellFormed(v)
    ensures PyEq(v, v)
  {
    match v
    case List(xs) =>
      forall i | 0 <= i < |xs| ensures PyEq(xs[i], xs[i]) {
        PyEqReflexive(xs[i]);
      }
    case Tuple(xs) =>
      forall i | 0 <= i < |xs| ensures PyEq(xs[i], xs[i]) {
        PyEqReflexive(xs[i]);
      }
    case Dict(e) =>
      forall i, j | 0 <= i < |e| && 0 <= j < |e| && e[i].0 == e[j].0 ensures PyEq(e[i].1, e[j].1) {
        PyEqReflexive(e[i].1);
      }
    case _ =>
  }

  lemma {:induction false} PyEqSymmetric(a: Value, b: Value)
    requires PyEq(a, b)
    ensures PyEq(b, a)
  {
    if a.List? && b.List? {
      forall i | 0 <= i < |b.items| ensures PyEq(b.items[i], a.items[i]) {
        PyEqSymmetric(a.items[i], b.items[i]);
      }
    } else if a.Tuple? && b.Tuple? {
      forall i | 0 <= i < |b.items| ensures PyEq(b.items[i], a.items[i]) {
        PyEqSymmetric(a.items[i], b.items[i]);
      }
    } else if a.Dict? && b.Dict? {
      forall i, j | 0 <= i < |b.entries| && 0 <= j < |a.entries| && b.entries[i].0 == a.entries[j].0
        ensures PyEq(b.entries[i].1, a.entries[j].1)
      {
        PyEqSymmetric(a.entries[j].1, b.entries[i].1);
      }
    }
  }

  /** loose keeps the keys of every dict, so it keeps them distinct. */
  lemma {:induction false} LooseKeepsWellFormed(v: Value, round: Rounding)
    requires WellFormed(v)
    ensures WellFormed(Loose(v, round))
  {
    match v
    case List(xs) =>
      forall i | 0 <= i < |xs| ensures WellFormed(Loose(v, round).items[i]) {
        LooseKeepsWellFormed(xs[i], round);
      }
    case Tuple(xs) =>
      forall i | 0 <= i < |xs| ensures WellFormed(Loose(v, round).items[i]) {
        LooseKeepsWellFormed(xs[i], round);
      }
    case Dict(e) =>
      forall i | 0 <= i < |e| ensures WellFormed(Loose(v, round).entries[i].1) {
        LooseKeepsWellFormed(e[i].1, round);
      }
    case _ =>
  }

  /** Every value is close to itself. */
  lemma CloseReflexive(v: Value, round: Rounding)
    requires WellFormed(v)
    ensures Close(v, v, round)
  {
    LooseKeepsWellFormed(v, round);
    PyEqReflexive(Loose(v, round));
  }

  lemma CloseSymmetric(a: Value, b: Value, round: Rounding)
    requires Close(a, b, round)
    ensures Close(b, a, round)
  {
    PyEqSymmetric(Loose(a, round), Loose(b, round));
  }

  /** Two dicts with the same entries in another key order are close. */
  lemma DictOrderIrrelevant(e1: seq<(string, Value)>, e2: seq<(string, Value)>, round: Rounding)
    requires WellFormed(Dict(e1))
    requires multiset(e1) == multiset(e2)
    ensures Close(Dict(e1), Dict(e2), round)
  {
    var l1, l2 := Loose(Dict(e1), round).entries, Loose(Dict(e2), round).entries;
    forall k | k in Keys(l1) ensures k in Keys(l2) {
      var i :| 0 <= i < |l1| && l1[i].0 == k;
      assert e1[i] in multiset(e2);
      var j :| 0 <= j < |e2| && e2[j] == e1[i];
      assert l2[j].0 == k;
    }
    forall k | k in Keys(l2) ensures k in Keys(l1) {
      var j :| 0 <= j < |l2| && l2[j].0 == k;
      assert e2[j] in multiset(e1);
      var i :| 0 <= i < |e1| && e1[i] == e2[j];
      assert l1[i].0 == k;
    }
    forall i, j | 0 <= i < |l1| && 0 <= j < |l2| && l1[i].0 == l2[j].0 ensures PyEq(l1[i].1, l2[j].1) {
      assert e2[j] in multiset(e1);
      var i' :| 0 <= i' < |e1| && e1[i'] == e2[j];
      assert i' == i;
      LooseKeepsWellFormed(e1[i].1, round);
      PyEqReflexive(l1[i].1);
    }
  }

  /**
    `b` is `a` with the entries of any of its dicts, at any depth, in
    another order: same containers and lengths, the same key set in every
    dict with reordered values under each key, the same scalars.
   */
  predicate Reordered(a: Value, b: Value) {
    match a
    case List(xs) =>
      b.List? && |b.items| == |xs| && forall i :: 0 <= i < |xs| ==> Reordered(xs[i], b.items[i])
    case Tuple(xs) =>
      b.Tuple? && |b.items| == |xs| && forall i :: 0 <= i < |xs| ==> Reordered(xs[i], b.items[i])
    case Dict(e) =>
      && b.Dict? && Keys(e) == Keys(b.entries)
      && forall i, j :: 0 <= i < |e| && 0 <= j < |b.entries| && e[i].0 == b.entries[j].0 ==>
           Reordered(e[i].1, b.entries[j].1)
    case _ => b == a
  }

  /** A dict whose entries are permuted is reordered at the top level, and the same below it. */
  lemma PermutedEntriesReordered(e1: seq<(string, Value)>, e2: seq<(string, Value)>)
    requires WellFormed(Dict(e1))
    requires multiset(e1) == multiset(e2)
    ensures Reordered(Dict(e1), Dict(e2))
  {
    forall k | k in Keys(e1) ensures k in Keys(e2) {
      var i :| 0 <= i < |e1| && e1[i].0 == k;
      assert e1[i] in multiset(e2);
      var j :| 0 <= j < |e2| && e2[j] == e1[i];
    }
    forall k | k in Keys(e2) ensures k in Keys(e1) {
      var j :| 0 <= j < |e2| && e2[j].0 == k;
      assert e2[j] in multiset(e1);
      var i :| 0 <= i < |e1| && e1[i] == e2[j];
    }
    forall i, j | 0 <= i < |e1| && 0 <= j < |e2| && e1[i].0 == e2[j].0 ensures Reordered(e1[i].1, e2[j].1) {
      assert e2[j] in multiset(e1);
      var i' :| 0 <= i' < |e1| && e1[i'] == e2[j];
      assert i' == i;
      ReorderedReflexive(e1[i].1);
    }
  }

  /** loose keeps the keys of a dict. */
  lemma LooseKeepsKeys(e: seq<(string, Value)>, round: Rounding)
    ensures Keys(Loose(Dict(e), round).entries) == Keys(e)
  {
    var l := Loose(Dict(e), round).entries;
    forall k | k in Keys(e) ensures k in Keys(l) {
      var i :| 0 <= i < |e| && e[i].0 == k;
      assert l[i].0 == k;
    }
  }

  /** Key order is irrelevant at every depth: a value with its dicts reordered anywhere is close to the original. */
  lemma {:induction false} ReorderedClose(a: Value, b: Value, round: Rounding)
    requires Reordered(a, b)
    ensures Close(a, b, round)
  {
    match a
    case List(xs) =>
      forall i | 0 <= i < |xs| ensures PyEq(Loose(a, round).items[i], Loose(b, round).items[i]) {
        ReorderedClose(xs[i], b.items[i], round);
      }
    case Tuple(xs) =>
      forall i | 0 <= i < |xs| ensures PyEq(Loose(a, round).items[i], Loose(b, round).items[i]) {
        ReorderedClose(xs[i], b.items[i], round);
      }
    case Dict(e) =>
      var l1, l2 := Loose(a, round).entries, Loose(b, round).entries;
      LooseKeepsKeys(e, round);
      LooseKeepsKeys(b.entries, round);
      forall i, j | 0 <= i < |l1| && 0 <= j < |l2| && l1[i].0 == l2[j].0 ensures PyEq(l1[i].1, l2[j].1) {
        ReorderedClose(e[i].1, b.entries[j].1, round);
      }
    case _ =>
      PyEqOfLooseScalar(a, round);
  }

  /** A scalar's loosened value equals itself under Python's ==. */
  lemma PyEqOfLooseScalar(a: Value, round: Rounding)
    requires !a.List? && !a.Tuple? && !a.Dict?
    ensures PyEq(Loose(a, round), Loose(a, round))
  {
  }

  /** Every well-formed value is a reordering of itself. */
  lemma {:induction false} ReorderedReflexive(v: Value)
    requires WellFormed(v)
    ensures Reordered(v, v)
  {
    match v
    case List(xs) =>
      forall i | 0 <= i < |xs| ensures Reordered(xs[i], xs[i]) {
        ReorderedReflexive(xs[i]);
      }
    case Tuple(xs) =>
      forall i | 0 <= i < |xs| ensures Reordered(xs[i], xs[i]) {
        ReorderedReflexive(xs[i]);
      }
    case Dict(e) =>
      forall i, j | 0 <= i < |e| && 0 <= j < |e| && e[i].0 == e[j].0 ensures Reordered(e[i].1, e[j].1) {
        ReorderedReflexive(e[i].1);
      }
    case _ =>
  }

  /** Sequences must match in length, and a list is never close to a tuple. */
  lemma CloseKeepsContainers(xs: seq<Value>, ys: seq<Value>, round: Rounding)
    ensures Close(List(xs), List(ys), round) ==> |xs| == |ys|
    ensures Close(Tuple(xs), Tuple(ys), round) ==> |xs| == |ys|
    ensures !Close(List(xs), Tuple(ys), round)
  {
  }
}

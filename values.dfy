/** Python values as the scraper's records and filter arguments hold them,
    with Python's truthiness, equality, membership and ordering rules. */
module PyValues {
  import opened Common

  /** A tagged Python value. Dates are whole timestamps; floats are exact reals. */
  datatype Value =
    | VNone
    | VBool(b: bool)
    | VInt(i: int)
    | VFloat(f: real)
    | VStr(s: string)
    | VDate(t: int)
    | VList(items: seq<Value>)
    | VSet(elems: set<Value>)
    | VDict(entries: map<Value, Value>)
    | VIter(pending: seq<Value>)       // an iterator over the values still to come
    | VObject(fields: map<string, Value>)  // an instance of a model class

  /** A scraped record: field name to value. */
  type Record = map<string, Value>

  /** Python's `bool(v)`. */
  predicate Truthy(v: Value)
  {
    match v
    case VNone => false
    case VBool(b) => b
    case VInt(i) => i != 0
    case VFloat(f) => f != 0.0
    case VStr(s) => s != ""
    case VDate(_) => true
    case VList(items) => items != []
    case VSet(elems) => elems != {}
    case VDict(entries) => entries != map[]
    case VIter(_) => true
    case VObject(_) => true
  }

  /** bool, int and float form Python's numeric tower. */
  predicate IsNumeric(v: Value)
  {
    v.VBool? || v.VInt? || v.VFloat?
  }

  function NumericValue(v: Value): real
    requires IsNumeric(v)
  {
    match v
    case VBool(b) => if b then 1.0 else 0.0
    case VInt(i) => i as real
    case VFloat(f) => f
  }

  /** Python's `a == b`: numbers compare by value across bool, int and float,
      lists element by element, sets by mutual containment and dicts by
      equal keys holding equal values, all through `==` itself; everything
      else compares structurally. */
  predicate PyEq(a: Value, b: Value)
    decreases a, 2
  {
    if IsNumeric(a) && IsNumeric(b) then NumericValue(a) == NumericValue(b)
    else if a.VList? && b.VList? then
      |a.items| == |b.items| && forall i :: 0 <= i < |a.items| ==> PyEq(a.items[i], b.items[i])
    else if a.VSet? && b.VSet? then SetEq(a, b)
    else if a.VDict? && b.VDict? then DictEq(a, b)
    else a == b
  }

  /** `e in s`, named so that the containment quantifiers below fire only
      where a proof mentions a member explicitly. */
  predicate Mem(e: Value, s: set<Value>)
  {
    e in s
  }

  predicate Key(k: Value, m: map<Value, Value>)
  {
    k in m
  }

  /** Every element of either set equals some element of the other. */
  predicate SetEq(a: Value, b: Value)
    requires a.VSet? && b.VSet?
    decreases a, 1
  {
    (forall e {:trigger Mem(e, a.elems)} :: e in a.elems ==> exists f :: f in b.elems && PyEq(e, f)) &&
    (forall f {:trigger Mem(f, b.elems)} :: f in b.elems ==> exists e :: e in a.elems && PyEq(e, f))
  }

  /** Every key of either dict equals a key of the other, holding an equal value. */
  predicate DictEq(a: Value, b: Value)
    requires a.VDict? && b.VDict?
    decreases a, 1
  {
    (forall k {:trigger Key(k, a.entries)} :: k in a.entries ==>
      exists k' :: k' in b.entries && EntryEq(a, b, k, k')) &&
    (forall k' {:trigger Key(k', b.entries)} :: k' in b.entries ==>
      exists k :: k in a.entries && EntryEq(a, b, k, k'))
  }

  /** Key `k` of `a` equals key `k'` of `b`, and they hold equal values. */
  predicate EntryEq(a: Value, b: Value, k: Value, k': Value)
    requires a.VDict? && b.VDict? && k in a.entries && k' in b.entries
    decreases a, 0
  {
    PyEq(k, k') && PyEq(a.entries[k], b.entries[k'])
  }

  /** `==` is reflexive on every value the model holds (floats are exact, so there is no NaN). */
  lemma {:induction false} PyEqReflexive(a: Value)
    ensures PyEq(a, a)
  {
    match a
    case VList(items) =>
      forall i | 0 <= i < |items| ensures PyEq(items[i], items[i]) {
        PyEqReflexive(items[i]);
      }
    case VSet(elems) =>
      forall e | e in elems ensures PyEq(e, e) {
        PyEqReflexive(e);
      }
    case VDict(entries) =>
      forall k | k in entries ensures EntryEq(a, a, k, k) {
        PyEqReflexive(k);
        PyEqReflexive(entries[k]);
      }
    case _ =>
  }

  /** `==` is symmetric. */
  lemma {:induction false} PyEqSymmetric(a: Value, b: Value)
    ensures PyEq(a, b) ==> PyEq(b, a)
    decreases a, 2
  {
    if PyEq(a, b) && !(IsNumeric(a) && IsNumeric(b)) {
      if a.VList? && b.VList? {
        forall i | 0 <= i < |b.items| ensures PyEq(b.items[i], a.items[i]) {
          PyEqSymmetric(a.items[i], b.items[i]);
        }
      } else if a.VSet? && b.VSet? {
        SetEqSymmetric(a, b);
      } else if a.VDict? && b.VDict? {
        DictEqSymmetric(a, b);
      }
    }
  }

  lemma {:induction false} SetEqSymmetric(a: Value, b: Value)
    requires a.VSet? && b.VSet? && SetEq(a, b)
    ensures SetEq(b, a)
    decreases a, 1
  {
    forall f | f in b.elems ensures exists e :: e in a.elems && PyEq(f, e) {
      assert Mem(f, b.elems);
      var e :| e in a.elems && PyEq(e, f);
      PyEqSymmetric(e, f);
    }
    forall e | e in a.elems ensures exists f :: f in b.elems && PyEq(f, e) {
      assert Mem(e, a.elems);
      var f :| f in b.elems && PyEq(e, f);
      PyEqSymmetric(e, f);
    }
  }

  lemma {:induction false} DictEqSymmetric(a: Value, b: Value)
    requires a.VDict? && b.VDict? && DictEq(a, b)
    ensures DictEq(b, a)
    decreases a, 1
  {
    forall k' | k' in b.entries ensures exists k :: k in a.entries && EntryEq(b, a, k', k) {
      assert Key(k', b.entries);
      var k :| k in a.entries && EntryEq(a, b, k, k');
      EntryEqSymmetric(a, b, k, k');
    }
    forall k | k in a.entries ensures exists k' :: k' in b.entries && EntryEq(b, a, k', k) {
      assert Key(k, a.entries);
      var k' :| k' in b.entries && EntryEq(a, b, k, k');
      EntryEqSymmetric(a, b, k, k');
    }
  }

  lemma {:induction false} EntryEqSymmetric(a: Value, b: Value, k: Value, k': Value)
    requires a.VDict? && b.VDict? && k in a.entries && k' in b.entries && EntryEq(a, b, k, k')
    ensures EntryEq(b, a, k', k)
    decreases a, 0
  {
    PyEqSymmetric(k, k');
    PyEqSymmetric(a.entries[k], b.entries[k']);
  }

  /** `{1} == {1.0}` and `{True: 1} == {1: 1.0}`, as in Python. */
  lemma PyEqAcrossNumbers()
    ensures PyEq(VSet({VInt(1)}), VSet({VFloat(1.0)}))
    ensures PyEq(VDict(map[VBool(true) := VInt(1)]), VDict(map[VInt(1) := VFloat(1.0)]))
  {
    SetOfOne(VInt(1), VFloat(1.0));
    DictOfOne(VBool(true), VInt(1), VInt(1), VFloat(1.0));
  }

  lemma SetOfOne(x: Value, y: Value)
    requires PyEq(x, y)
    ensures PyEq(VSet({x}), VSet({y}))
  {
    assert SetEq(VSet({x}), VSet({y}));
  }

  lemma DictOfOne(k: Value, v: Value, k': Value, v': Value)
    requires PyEq(k, k') && PyEq(v, v')
    ensures PyEq(VDict(map[k := v]), VDict(map[k' := v']))
  {
    var a, b := VDict(map[k := v]), VDict(map[k' := v']);
    assert EntryEq(a, b, k, k');
    assert DictEq(a, b);
  }

  /** Python's falsy values: None, any number equal to zero, and the empty
      string, list, set and dict. */
  lemma TruthyMeansNonZero(v: Value)
    ensures !Truthy(v) <==>
      v == VNone || PyEq(v, VInt(0)) || PyEq(v, VStr("")) ||
      PyEq(v, VList([])) || PyEq(v, VSet({})) || PyEq(v, VDict(map[]))
  {
    if v.VSet? && v.elems != {} {
      var e :| e in v.elems;
      assert Mem(e, v.elems);
      assert !PyEq(v, VSet({}));
    }
    if v.VDict? && v.entries != map[] {
      var k :| k in v.entries;
      assert Key(k, v.entries);
      assert !PyEq(v, VDict(map[]));
    }
  }

  /** Only immutable values can be looked up in a set. */
  predicate Hashable(v: Value)
  {
    !(v.VList? || v.VSet? || v.VDict? || v.VObject?)
  }

  /** Python's `x in container` for a list or set container;
      None stands for the TypeError raised when an unhashable value is looked up in a set. */
  function Member(x: Value, container: Value): (r: Option<bool>)
    requires container.VList? || container.VSet?
    ensures r.Some? <==> container.VList? || Hashable(x)
    ensures r.Some? ==> (r.value <==>
      (container.VList? && exists i :: 0 <= i < |container.items| && PyEq(x, container.items[i])) ||
      (container.VSet? && exists e :: e in container.elems && PyEq(x, e)))
  {
    if container.VList? then
      Some(exists i :: 0 <= i < |container.items| && PyEq(x, container.items[i]))
    else if !Hashable(x) then None
    else Some(exists e :: e in container.elems && PyEq(x, e))
  }

  datatype Order = Less | LessEq | Greater | GreaterEq

  function CompareInts(o: Order, x: int, y: int): bool
  {
    match o
    case Less => x < y
    case LessEq => x <= y
    case Greater => x > y
    case GreaterEq => x >= y
  }

  function CompareReals(o: Order, x: real, y: real): bool
  {
    match o
    case Less => x < y
    case LessEq => x <= y
    case Greater => x > y
    case GreaterEq => x >= y
  }

  /** Code-point lexicographic order, as Python orders `str`. */
  predicate StrLess(x: string, y: string)
  {
    if x == [] then y != []
    else if y == [] then false
    else if x[0] != y[0] then x[0] < y[0]
    else StrLess(x[1..], y[1..])
  }

  function CompareStrs(o: Order, x: string, y: string): bool
  {
    match o
    case Less => StrLess(x, y)
    case LessEq => StrLess(x, y) || x == y
    case Greater => StrLess(y, x)
    case GreaterEq => StrLess(y, x) || x == y
  }

  /** Every element of `x` equals some element of `y`: Python's `x <= y` on sets. */
  predicate SubsetEq(x: set<Value>, y: set<Value>)
  {
    forall e :: e in x ==> exists f :: f in y && PyEq(e, f)
  }

  /** Sets are ordered by inclusion; a proper subset is also smaller. */
  function CompareSets(o: Order, x: set<Value>, y: set<Value>): bool
  {
    match o
    case Less => |x| < |y| && SubsetEq(x, y)
    case LessEq => SubsetEq(x, y)
    case Greater => |y| < |x| && SubsetEq(y, x)
    case GreaterEq => SubsetEq(y, x)
  }

  /** The first index at which two lists hold unequal elements, or the shorter length. */
  function FirstDifference(xs: seq<Value>, ys: seq<Value>): (k: nat)
    ensures k <= |xs| && k <= |ys|
    ensures forall j :: 0 <= j < k ==> PyEq(xs[j], ys[j])
    ensures k < |xs| && k < |ys| ==> !PyEq(xs[k], ys[k])
  {
    if xs == [] || ys == [] then 0
    else if PyEq(xs[0], ys[0]) then 1 + FirstDifference(xs[1..], ys[1..])
    else 0
  }

  /** Python's ordered comparisons; None stands for the TypeError raised
      when the two values are not mutually ordered. */
  function Compare(o: Order, a: Value, b: Value): Option<bool>
  {
    if IsNumeric(a) && IsNumeric(b) then Some(CompareReals(o, NumericValue(a), NumericValue(b)))
    else match (a, b)
      case (VStr(x), VStr(y)) => Some(CompareStrs(o, x, y))
      case (VDate(x), VDate(y)) => Some(CompareInts(o, x, y))
      case (VSet(x), VSet(y)) => Some(CompareSets(o, x, y))
      case (VList(xs), VList(ys)) =>
        var k := FirstDifference(xs, ys);
        if k == |xs| || k == |ys| then Some(CompareInts(o, |xs|, |ys|))
        else Compare(o, xs[k], ys[k])
      case _ => None
  }

  lemma {:induction false} FirstDifferenceSymmetric(xs: seq<Value>, ys: seq<Value>)
    ensures FirstDifference(xs, ys) == FirstDifference(ys, xs)
  {
    if xs != [] && ys != [] {
      PyEqSymmetric(xs[0], ys[0]);
      PyEqSymmetric(ys[0], xs[0]);
      FirstDifferenceSymmetric(xs[1..], ys[1..]);
    }
  }

  /** `a < b` is `b > a` and `a <= b` is `b >= a`, including whether a
      TypeError is raised. */
  lemma {:induction false} CompareConverse(a: Value, b: Value)
    ensures Compare(Less, a, b) == Compare(Greater, b, a)
    ensures Compare(LessEq, a, b) == Compare(GreaterEq, b, a)
  {
    if a.VList? && b.VList? && !(IsNumeric(a) && IsNumeric(b)) {
      FirstDifferenceSymmetric(a.items, b.items);
      var k := FirstDifference(a.items, b.items);
      if k < |a.items| && k < |b.items| {
        CompareConverse(a.items[k], b.items[k]);
      }
    }
  }

  /** Unless both sides are lists, ordered comparison is defined exactly
      between two numbers, two strings, two dates or two sets. */
  lemma {:induction false} CompareDefinedScalars(o: Order, a: Value, b: Value)
    requires !(a.VList? && b.VList?)
    ensures Compare(o, a, b).Some? <==>
      (IsNumeric(a) && IsNumeric(b)) || (a.VStr? && b.VStr?) || (a.VDate? && b.VDate?) || (a.VSet? && b.VSet?)
  {
  }
}

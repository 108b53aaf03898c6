/**
 * Attribute filters: a comparator and a reference value paired with an
 * accessor that picks one attribute out of a close approach. Evaluating a
 * filter on an approach applies the comparator to the extracted attribute
 * and the reference value.
 */
module Filters {
  import opened Wrappers
  import opened Approaches

  /** The three comparators of Python's `operator` module the filters use. */
  datatype Op = Eq | Ge | Le

  /**
   * Which accessor a filter uses. `Base` is the `AttributeFilter` superclass
   * itself, whose accessor is not implemented; the others are its subclasses.
   */
  datatype Kind = Base | Date | Distance | Velocity | Diameter | Hazardous

  /** A value a filter compares: a calendar day, a float or a bool. */
  datatype Value = DateValue(day: int) | Number(x: real) | Flag(b: bool)

  /** The exceptions raised while evaluating a filter. */
  datatype Error =
    | UnsupportedCriterion  // the base accessor was called
    | Incomparable          // `>=` or `<=` between a date and a number (Python's TypeError)

  /** An attribute filter: the accessor kind, the comparator and the reference value. */
  datatype Filter = Filter(kind: Kind, op: Op, value: Value)

  /** The comparator applied to two numbers. */
  function Holds(op: Op, x: real, y: real): bool
  {
    match op
    case Eq => x == y
    case Ge => x >= y
    case Le => x <= y
  }

  /** Python treats `bool` as a number (`False` is 0, `True` is 1); a date is not a number. */
  function Numeric(v: Value): Option<real>
  {
    match v
    case Number(x) => Some(x)
    case Flag(b) => Some(if b then 1.0 else 0.0)
    case DateValue(_) => None
  }

  /** Two values can be ordered: two dates, or two numbers (bools included). */
  predicate Comparable(x: Value, y: Value)
  {
    (x.DateValue? && y.DateValue?) || (Numeric(x).Some? && Numeric(y).Some?)
  }

  /** Both values have the same constructor. */
  predicate SameType(x: Value, y: Value)
  {
    (x.DateValue? && y.DateValue?) || (x.Number? && y.Number?) || (x.Flag? && y.Flag?)
  }

  /**
   * `op(left, right)` with Python's semantics: dates are ordered by day and
   * numbers by value; equality between a date and a number is false, while
   * ordering them raises.
   */
  function Compare(op: Op, left: Value, right: Value): (r: Result<bool, Error>)
    ensures r.Failure? <==> op != Eq && !Comparable(left, right)
    ensures r.Failure? ==> r.error == Incomparable
    ensures op == Eq && SameType(left, right) ==> r == Success(left == right)
    ensures op == Eq && !Comparable(left, right) ==> r == Success(false)
  {
    if left.DateValue? && right.DateValue? then
      Success(Holds(op, left.day as real, right.day as real))
    else if Numeric(left).Some? && Numeric(right).Some? then
      Success(Holds(op, Numeric(left).value, Numeric(right).value))
    else if op == Eq then
      Success(false)
    else
      Failure(Incomparable)
  }

  /** The type of value each accessor yields. */
  predicate HasType(v: Value, kind: Kind)
  {
    match kind
    case Base => false
    case Date => v.DateValue?
    case Distance | Velocity | Diameter => v.Number?
    case Hazardous => v.Flag?
  }

  /**
   * The accessor `get` of each filter class. The Date filter keeps only the
   * calendar date of the approach time; Diameter and Hazardous read the
   * linked NEO; the base class raises `UnsupportedCriterionError`.
   */
  function Get(kind: Kind, approach: CloseApproach): (r: Result<Value, Error>)
    ensures r.Failure? <==> kind == Base
    ensures r.Failure? ==> r.error == UnsupportedCriterion
    ensures r.Success? ==> HasType(r.value, kind)
  {
    match kind
    case Base => Failure(UnsupportedCriterion)
    case Date => Success(DateValue(DateOf(approach.time)))
    case Distance => Success(Number(approach.distance))
    case Velocity => Success(Number(approach.velocity))
    case Diameter => Success(Number(approach.neo.diameter))
    case Hazardous => Success(Flag(approach.neo.hazardous))
  }

  /** A filter whose reference value has the type its accessor yields. */
  predicate WellTyped(f: Filter)
  {
    HasType(f.value, f.kind)
  }

  /** Evaluating a filter on an approach: `op(get(approach), value)`. */
  function Call(f: Filter, approach: CloseApproach): (r: Result<bool, Error>)
    ensures f.kind == Base ==> r == Failure(UnsupportedCriterion)
    ensures WellTyped(f) ==> r.Success?
    ensures f.kind != Base && f.op == Eq ==> r.Success?
  {
    match Get(f.kind, approach)
    case Failure(e) => Failure(e)
    case Success(attribute) => Compare(f.op, attribute, f.value)
  }

  /** A filter accepts an approach when evaluating it returns true without raising. */
  predicate Accepts(f: Filter, approach: CloseApproach)
  {
    Call(f, approach) == Success(true)
  }

  /** A filter set matches an approach when every filter in it accepts the approach (AND). */
  predicate AcceptsAll(filters: seq<Filter>, approach: CloseApproach): (all: bool)
    ensures all <==> forall f :: f in filters ==> Accepts(f, approach)
  {
    forall i :: 0 <= i < |filters| ==> Accepts(filters[i], approach)
  }

  /**
   * Date filters compare calendar days only: on day `d`, `date == d` accepts
   * exactly the approaches from midnight of `d` up to (not including)
   * midnight of the next day, whatever their time of day.
   */
  lemma DateEqualsWholeDay(d: int, approach: CloseApproach)
    ensures Accepts(Filter(Date, Eq, DateValue(d)), approach)
        <==> d * SecondsPerDay <= approach.time < (d + 1) * SecondsPerDay
  {
    DateOfWithin(approach.time, d);
  }

  /** `start_date` is inclusive: `date >= d` accepts every approach from midnight of `d` on. */
  lemma DateOnOrAfter(d: int, approach: CloseApproach)
    ensures Accepts(Filter(Date, Ge, DateValue(d)), approach) <==> approach.time >= d * SecondsPerDay
  {
    var q := DateOf(approach.time);
    DateOfWithin(approach.time, q);
    if q < d {
      assert (q + 1) * SecondsPerDay <= d * SecondsPerDay;
    } else {
      assert d * SecondsPerDay <= q * SecondsPerDay;
    }
  }

  /** `end_date` is inclusive: `date <= d` accepts every approach before midnight of the day after `d`. */
  lemma DateOnOrBefore(d: int, approach: CloseApproach)
    ensures Accepts(Filter(Date, Le, DateValue(d)), approach) <==> approach.time < (d + 1) * SecondsPerDay
  {
    var q := DateOf(approach.time);
    DateOfWithin(approach.time, q);
    if q > d {
      assert (d + 1) * SecondsPerDay <= q * SecondsPerDay;
    } else {
      assert (q + 1) * SecondsPerDay <= (d + 1) * SecondsPerDay;
    }
  }

  /** Two approaches on the same calendar day, at any times of day, get the same verdict from a Date filter. */
  lemma SameDaySameVerdict(f: Filter, a1: CloseApproach, a2: CloseApproach)
    requires f.kind == Date
    requires DateOf(a1.time) == DateOf(a2.time)
    ensures Call(f, a1) == Call(f, a2)
  {
  }

  /**
   * The Diameter and Hazardous filters read only the linked NEO: two
   * approaches of the same NEO get the same verdict whatever their own
   * time, distance and velocity.
   */
  lemma NeoFiltersReadOnlyTheNeo(f: Filter, a1: CloseApproach, a2: CloseApproach)
    requires f.kind == Diameter || f.kind == Hazardous
    requires a1.neo == a2.neo
    ensures Call(f, a1) == Call(f, a2)
  {
  }

  /**
   * On well-typed filters `eq` holds exactly when both `ge` and `le` hold,
   * and at least one of `ge` and `le` always holds.
   */
  lemma EqIsGeAndLe(kind: Kind, v: Value, approach: CloseApproach)
    requires HasType(v, kind)
    ensures Accepts(Filter(kind, Eq, v), approach)
        <==> Accepts(Filter(kind, Ge, v), approach) && Accepts(Filter(kind, Le, v), approach)
    ensures Accepts(Filter(kind, Ge, v), approach) || Accepts(Filter(kind, Le, v), approach)
  {
  }

  /** The empty filter set matches every approach. */
  lemma EmptyAcceptsAll(approach: CloseApproach)
    ensures AcceptsAll([], approach)
  {
  }

  /** A filter set that matches an approach has each of its filters accept it. */
  lemma AcceptsAllMember(filters: seq<Filter>, f: Filter, approach: CloseApproach)
    requires AcceptsAll(filters, approach) && f in filters
    ensures Accepts(f, approach)
  {
  }

  /** Matching a concatenation of filter sets is matching both (AND composes). */
  lemma AcceptsAllConcat(fs: seq<Filter>, gs: seq<Filter>, approach: CloseApproach)
    ensures AcceptsAll(fs + gs, approach) <==> AcceptsAll(fs, approach) && AcceptsAll(gs, approach)
  {
    if AcceptsAll(fs, approach) && AcceptsAll(gs, approach) {
      forall i | 0 <= i < |fs + gs| ensures Accepts((fs + gs)[i], approach) {
        if i >= |fs| {
          assert (fs + gs)[i] == gs[i - |fs|];
        }
      }
    }
    if AcceptsAll(fs + gs, approach) {
      forall i | 0 <= i < |fs| ensures Accepts(fs[i], approach) {
        assert (fs + gs)[i] == fs[i];
      }
      forall j | 0 <= j < |gs| ensures Accepts(gs[j], approach) {
        assert (fs + gs)[|fs| + j] == gs[j];
      }
    }
  }

  /**
   * The verdict of a filter set does not depend on the order of its
   * filters, nor on repeated filters: two sets holding the same filters
   * match the same approaches.
   */
  lemma AcceptsAllOrderIndependent(fs: seq<Filter>, gs: seq<Filter>, approach: CloseApproach)
    requires forall f :: f in fs <==> f in gs
    ensures AcceptsAll(fs, approach) <==> AcceptsAll(gs, approach)
  {
    if AcceptsAll(fs, approach) {
      forall j | 0 <= j < |gs| ensures Accepts(gs[j], approach) {
        assert gs[j] in fs;
      }
    }
    if AcceptsAll(gs, approach) {
      forall i | 0 <= i < |fs| ensures Accepts(fs[i], approach) {
        assert fs[i] in gs;
      }
    }
  }
}

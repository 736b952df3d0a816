/**
 * The JavaScript values that live in the mock tables, and the three comparisons the
 * table engine applies to them: loose equality `==`, strict equality `===` and `<`.
 *
 * Numbers are modelled as integers (ids, view counts, row counts). A record (`Row`)
 * maps field names to values; a field that is missing reads as `undefined`, so a field
 * holding `undefined` and a missing field cannot be told apart, exactly as after the
 * JSON round trip through localStorage.
 */
module JsValues {
  import opened Wrappers
  import Text

  datatype Value =
    | Str(s: string)
    | Num(n: int)
    | Bool(b: bool)
    | Null
    | Undefined
    | Arr(items: seq<Value>)
    | Obj(fields: map<string, Value>)

  type Row = map<string, Value>

  /** `row[k]`. */
  function Field(r: Row, k: string): Value {
    if k in r then r[k] else Undefined
  }

  /** `{ ...a, ...b }`: the fields of `b` win. */
  function Merge(a: Row, b: Row): (r: Row)
    ensures forall k :: Field(r, k) == if k in b then b[k] else Field(a, k)
  {
    a + b
  }

  /** Arrays and objects: compared by reference in JavaScript. */
  predicate IsComposite(v: Value) {
    v.Arr? || v.Obj?
  }

  predicate IsNullish(v: Value) {
    v.Null? || v.Undefined?
  }

  /** `ToNumber(v)`, with NaN as `None`. Arrays and objects are NaN in this model. */
  function ToNumber(v: Value): Option<int> {
    match v
    case Num(n) => Some(n)
    case Bool(b) => Some(if b then 1 else 0)
    case Null => Some(0)
    case Str(s) => Text.StringToNumber(s)
    case Undefined => None
    case Arr(_) => None
    case Obj(_) => None
  }

  /** JavaScript truthiness (`if (v)`, `v || w`). */
  predicate Truthy(v: Value) {
    match v
    case Str(s) => |s| > 0
    case Num(n) => n != 0
    case Bool(b) => b
    case Null => false
    case Undefined => false
    case Arr(_) => true
    case Obj(_) => true
  }

  /** `a === b`. A stored array or object is a freshly parsed one, so it is never the
      same reference as the value it is compared with. */
  predicate StrictEq(a: Value, b: Value) {
    !IsComposite(a) && a == b
  }

  /** `a == b` (the abstract equality comparison): `null` and `undefined` equal each
      other and nothing else; values of one primitive type compare directly; otherwise
      both sides are converted to numbers. */
  predicate LooseEq(a: Value, b: Value) {
    if IsComposite(a) || IsComposite(b) then false
    else if IsNullish(a) || IsNullish(b) then IsNullish(a) && IsNullish(b)
    else if a.Str? && b.Str? then a.s == b.s
    else if a.Bool? && b.Bool? then a.b == b.b
    else ToNumber(a).Some? && ToNumber(a) == ToNumber(b)
  }

  /** `a < b` (the abstract relational comparison): two strings compare lexicographically,
      anything else numerically, and NaN compares false. */
  predicate Less(a: Value, b: Value) {
    if a.Str? && b.Str? then Text.LexLess(a.s, b.s)
    else ToNumber(a).Some? && ToNumber(b).Some? && ToNumber(a).value < ToNumber(b).value
  }

  lemma LooseEqSymmetric(a: Value, b: Value)
    ensures LooseEq(a, b) == LooseEq(b, a)
  {
  }

  /** Strictly equal values are loosely equal. */
  lemma StrictEqImpliesLooseEq(a: Value, b: Value)
    requires StrictEq(a, b)
    ensures LooseEq(a, b)
  {
  }

  /** Every primitive value loosely equals itself. */
  lemma LooseEqReflexive(a: Value)
    requires !IsComposite(a)
    ensures LooseEq(a, a)
  {
  }

  /** Two strings are loosely equal exactly when they are equal. */
  lemma LooseEqOnStrings(x: string, y: string)
    ensures LooseEq(Str(x), Str(y)) <==> x == y
  {
  }

  /** The loose comparison used by queries matches a numeric id with its decimal string,
      while the strict comparison used by `update` and `delete` does not. */
  lemma NumericIdMatchesStringId(n: nat)
    ensures LooseEq(Num(n), Str(Text.DecimalString(n)))
    ensures !StrictEq(Num(n), Str(Text.DecimalString(n)))
  {
    Text.StringToNumberOfDecimal(n);
  }

  /** A missing field loosely equals `null`: `eq(col, null)` selects rows lacking `col`. */
  lemma MissingFieldLooselyNull(r: Row, k: string)
    requires k !in r
    ensures LooseEq(Field(r, k), Null)
    ensures !StrictEq(Field(r, k), Null)
  {
  }

  lemma LessIrreflexive(a: Value)
    ensures !Less(a, a)
  {
    if a.Str? {
      Text.LexLessIrreflexive(a.s);
    }
  }

  lemma LessAsymmetric(a: Value, b: Value)
    requires Less(a, b)
    ensures !Less(b, a)
  {
    if a.Str? && b.Str? {
      if Text.LexLess(b.s, a.s) {
        Text.LexLessTransitive(a.s, b.s, a.s);
        Text.LexLessIrreflexive(a.s);
      }
    }
  }

  /** Values of the same sortable kind: both strings or both numbers. */
  predicate SameKind(a: Value, b: Value) {
    (a.Str? && b.Str?) || (a.Num? && b.Num?)
  }

  /** On strings alone, and on numbers alone, `<` is transitive ... */
  lemma LessTransitive(a: Value, b: Value, c: Value)
    requires SameKind(a, b) && SameKind(b, c)
    requires Less(a, b) && Less(b, c)
    ensures Less(a, c)
  {
    if a.Str? {
      Text.LexLessTransitive(a.s, b.s, c.s);
    }
  }

  /** ... and total. */
  lemma LessTotal(a: Value, b: Value)
    requires SameKind(a, b) && a != b
    ensures Less(a, b) || Less(b, a)
  {
    if a.Str? {
      Text.LexLessTotal(a.s, b.s);
    }
  }
}

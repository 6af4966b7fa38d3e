/**
 * The run-time values: integers, booleans, null and the return signal that
 * wraps the value of a `return` statement. The wrapped value may be Go's nil
 * interface (a `return` whose value is missing or does not evaluate), which
 * is `None` here.
 */
module Object {
  import opened Wrappers
  import opened Int64
  import opened Strconv

  /** The four type tags. */
  datatype ObjectType = INTEGER | BOOLEAN | NULL | RETURN

  /** The string value of each tag constant. */
  function TypeName(t: ObjectType): string {
    match t
    case INTEGER => "INTEGER"
    case BOOLEAN => "BOOLEAN"
    case NULL => "NULL"
    case RETURN => "RETURN"
  }

  datatype Object =
    | Integer(value: Int64)
    | Boolean(truth: bool)
    | Null
    | ReturnValue(wrapped: Option<Object>)

  /** `Type`: the tag of the variant. */
  function Type(o: Object): (t: ObjectType)
    ensures t == INTEGER <==> o.Integer?
    ensures t == BOOLEAN <==> o.Boolean?
    ensures t == NULL <==> o.Null?
    ensures t == RETURN <==> o.ReturnValue?
  {
    match o
    case Integer(_) => INTEGER
    case Boolean(_) => BOOLEAN
    case Null => NULL
    case ReturnValue(_) => RETURN
  }

  /** The four tag strings are pairwise distinct. */
  lemma TypeNamesDistinct(a: ObjectType, b: ObjectType)
    requires TypeName(a) == TypeName(b)
    ensures a == b
  {
  }

  /** `Inspect` can be called: no return signal on the way down wraps nil (calling `Inspect` on nil panics). */
  predicate Inspectable(o: Object) {
    match o
    case ReturnValue(None) => false
    case ReturnValue(Some(v)) => Inspectable(v)
    case _ => true
  }

  /** `Inspect`: `%d` of an integer, `%t` of a boolean, "null", and the wrapped value's text for a return signal. */
  function Inspect(o: Object): (s: string)
    requires Inspectable(o)
    ensures o.Null? ==> s == "null"
    ensures o.Boolean? ==> s == (if o.truth then "true" else "false")
  {
    match o
    case Integer(v) => FormatInt(v)
    case Boolean(b) => if b then "true" else "false"
    case Null => "null"
    case ReturnValue(w) => Inspect(w.value)
  }

  /** An integer's text is its signed decimal numeral: it reads back, with `strconv.ParseInt`, as the same value. */
  lemma InspectIntegerRoundTrip(v: Int64)
    ensures ParseInt(Inspect(Integer(v))) == ParseResult(v, NoError)
    ensures (Inspect(Integer(v))[0] == '-') <==> v < 0
  {
    FormatParseRoundTrip(v);
  }

  /** However deeply return signals are nested, the text is that of the innermost value. */
  lemma {:induction false} InspectUnwraps(o: Object)
    requires Inspectable(o)
    ensures Inspect(o) == Inspect(Innermost(o))
  {
    match o
    case ReturnValue(w) => InspectUnwraps(w.value);
    case _ =>
  }

  /** The value inside all return signals. */
  function Innermost(o: Object): (r: Object)
    requires Inspectable(o)
    ensures Inspectable(r) && !r.ReturnValue?
  {
    match o
    case ReturnValue(w) => Innermost(w.value)
    case _ => o
  }
}

/**
 * The loosely typed values that travel in a record dictionary (a row of the
 * remote table, or the mapping an entity is serialised to), and the few
 * Python predicates the serialiser applies to them.
 */
module Values {

  datatype Option<+T> = None | Some(value: T)

  /** A calendar date (`datetime.date`); field ranges are not checked. */
  datatype Date = Date(year: int, month: int, day: int)

  /** A naive `datetime.datetime`: a date and a time of day. */
  datatype DateTime = DateTime(date: Date, hour: int, minute: int, second: int, microsecond: int)

  /**
   * One dictionary value. `IsoDate` and `IsoDateTime` stand for the text that
   * `isoformat()` produces from a date or a datetime; the conversion is kept
   * opaque (and therefore injective) instead of spelling out its characters.
   */
  datatype Value =
    | Null                        // None
    | Str(text: string)           // str
    | Int(number: int)            // int
    | Float(amount: real)         // float, only ever copied
    | DateV(date: Date)           // a date that is not a datetime
    | DateTimeV(stamp: DateTime)  // a datetime (a subclass of date in Python)
    | IsoDate(ofDate: Date)       // str returned by date.isoformat()
    | IsoDateTime(ofStamp: DateTime)  // str returned by datetime.isoformat()

  /** A record dictionary: string keys, loosely typed values. */
  type Row = map<string, Value>

  /** `m.get(k)`: the value under `k`, or None when the key is absent. */
  function Get(m: Row, k: string): Value {
    if k in m then m[k] else Null
  }

  /** Python truthiness of a value, as used by `if data.get(key) and ...`. */
  predicate Truthy(v: Value) {
    match v
    case Null => false
    case Str(s) => s != ""
    case Int(i) => i != 0
    case Float(x) => x != 0.0
    case _ => true  // date and datetime objects, and their ISO text, are never falsy
  }

  /** `isinstance(v, date)`: true of datetimes as well, since datetime subclasses date. */
  predicate IsDate(v: Value) {
    v.DateV? || v.DateTimeV?
  }

  /** `isinstance(v, datetime)`. */
  predicate IsDateTime(v: Value) {
    v.DateTimeV?
  }
}

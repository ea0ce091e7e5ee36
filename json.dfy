/** The dynamically typed source records of the import, and the ways reading
    them can fail.

    A source record is one flat JSON object of the laureate file: a map from
    field names to JSON values. A field that is absent from the map raises a
    KeyError when the importer indexes it, which the model reports as a
    `Failure` instead of an exception. */
module Json {

  /** A JSON value as it appears in a laureate record. `Point` is the
      two-member object stored under "geo_point_2d"; its values are kept in
      the order of its keys, because the importer unpacks `.values()`. */
  datatype Value =
    | Null
    | Str(s: string)
    | Num(n: int)
    | Point(first: real, second: real)

  /** Python truthiness of a value: None, "" and 0 are false. */
  predicate Truthy(v: Value)
  {
    match v
    case Null => false
    case Str(s) => s != ""
    case Num(n) => n != 0
    case Point(_, _) => true
  }

  /** The keys of a laureate record. The file has no others; a key outside
      this list would never be read by the importer and never reach a row. */
  datatype Key =
    | Id | Firstname | Surname | Born | Died
    | BornCountry | BornCountryCode | BornCountryCode3 | BornCity
    | DiedCountry | DiedCountryCode | DiedCountryCode3 | DiedCity
    | Gender | Year | Category | OverallMotivation | Motivation
    | Name | City | Country | GeoShape | GeoPoint2d

  /** One source record. */
  type Record = map<Key, Value>

  /** Why a step of the import stops. Each case is an exception the importer
      would raise. */
  datatype Failure =
    | KeyMissing(key: Key)              // KeyError on item[key]
    | NoSuchField                       // StopIteration from next(...)
    | Unhashable                        // TypeError: a JSON object used as a dict key or set element
    | CountryNotFound(name: Value)      // LookupError raised by the name resolver
    | NotACountry(text: string)         // AttributeError: a plain string used as a country record
    | NotAPoint(value: Value)           // unpacking .values() of something that is not a point
    | BadDate(value: Value)             // strptime refusing its argument

  datatype Option<T> = None | Some(value: T)

  datatype Result<T> = Ok(value: T) | Err(failure: Failure) {
    predicate IsFailure() { Err? }

    function PropagateFailure<U>(): Result<U>
      requires Err?
    {
      Err(failure)
    }

    function Extract(): T
      requires Ok?
    {
      value
    }
  }

  /** item[key]: the value stored under `key`, or a KeyError. */
  function Get(item: Record, key: Key): (r: Result<Value>)
    ensures r.Ok? <==> key in item
    ensures r.Ok? ==> r.value == item[key]
    ensures r.Err? ==> r.failure == KeyMissing(key)
  {
    if key in item then Ok(item[key]) else Err(KeyMissing(key))
  }
}

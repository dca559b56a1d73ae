/** The JavaScript values a raw transaction record carries, and the two
    JavaScript coercions the normaliser applies to them: `String(v)` and
    truthiness. */
module JsValue {

  /** `undefined` is None. */
  datatype Option<T> = None | Some(value: T)

  /** A JavaScript number, represented by the text `String(n)` renders it as
      ("1500", "0.5", "0" for both zeros, "NaN"). The normaliser never does
      arithmetic on numbers; it only renders, tests and passes them on. */
  datatype JsNumber = JsNumber(text: string)

  /** A field value of a decoded provider record. */
  datatype Value = Str(s: string) | Num(n: JsNumber)

  /** `String(v)`. */
  function Stringify(v: Value): (r: string)
    ensures v.Str? ==> r == v.s
    ensures v.Num? ==> r == v.n.text
  {
    match v
    case Str(s) => s
    case Num(n) => n.text
  }

  /** JavaScript truthiness: the empty string, both zeros and NaN are falsy. */
  predicate Truthy(v: Value) {
    match v
    case Str(s) => s != ""
    case Num(n) => n.text != "0" && n.text != "NaN"
  }

  /** Truthiness of an optional string (`undefined` is falsy). */
  predicate Present(o: Option<string>) {
    o.Some? && o.value != ""
  }

  /** The `a || b` operator on string-or-undefined operands. */
  function Or(a: Option<string>, b: Option<string>): (r: Option<string>)
    ensures Present(a) ==> r == a
    ensures !Present(a) ==> r == b
  {
    if Present(a) then a else b
  }
}

/** A raw provider record: an open-ended mapping from field names to values.
    A field that is missing from the map is `undefined`. */
module Raw {
  import opened JsValue

  type RawTransaction = map<string, Value>

  /** The field, when it is present and a string. */
  function StringAt(tx: RawTransaction, key: string): (r: Option<string>)
    ensures r.Some? <==> key in tx && tx[key].Str?
    ensures r.Some? ==> tx[key] == Str(r.value)
  {
    if key in tx && tx[key].Str? then Some(tx[key].s) else None
  }

  /** `typeof tx[key] === 'string' && tx[key]`, read as "a non-empty string". */
  function NonEmptyStringAt(tx: RawTransaction, key: string): (r: Option<string>)
    ensures r.Some? <==> key in tx && tx[key].Str? && tx[key].s != ""
    ensures r.Some? ==> tx[key] == Str(r.value)
  {
    if key in tx && tx[key].Str? && tx[key].s != "" then Some(tx[key].s) else None
  }

  /** `tx[key] !== undefined ? String(tx[key]) : undefined`. */
  function StringifiedAt(tx: RawTransaction, key: string): (r: Option<string>)
    ensures r.Some? <==> key in tx
    ensures key in tx && tx[key].Str? ==> r == Some(tx[key].s)
    ensures key in tx && tx[key].Num? ==> r == Some(tx[key].n.text)
  {
    if key in tx then Some(Stringify(tx[key])) else None
  }

  /** `if (tx[key])`: the field is present and truthy. */
  predicate TruthyAt(tx: RawTransaction, key: string) {
    key in tx && Truthy(tx[key])
  }

  predicate StringOrAbsent(tx: RawTransaction, key: string) {
    key !in tx || tx[key].Str?
  }

  /** The record's interface declares these fields as strings, and the code
      casts them with `as string` and calls string methods on them (or, for
      `protocol_name`, hands the value on as a string). */
  predicate Conforming(tx: RawTransaction) {
    && StringOrAbsent(tx, "category")
    && StringOrAbsent(tx, "asset")
    && StringOrAbsent(tx, "token_symbol")
    && StringOrAbsent(tx, "token_in")
    && StringOrAbsent(tx, "token_out")
    && StringOrAbsent(tx, "protocol_name")
  }

  /** Two records agree on the given fields: each field is missing from both
      or holds the same value in both. */
  predicate AgreeOn(tx: RawTransaction, tx': RawTransaction, keys: set<string>) {
    forall k :: k in keys ==> SameField(tx, tx', k)
  }

  /** The field is missing from both records or holds the same value in both. */
  predicate SameField(tx: RawTransaction, tx': RawTransaction, key: string) {
    (key in tx <==> key in tx') && (key in tx ==> tx[key] == tx'[key])
  }
}

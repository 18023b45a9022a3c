/** Shared vocabulary of the model: optional values, GraphQL input fields,
    the error codes the resolvers attach, and results carrying them. */
module Common {

  datatype Option<+T> = None | Some(value: T)

  /** A field of a GraphQL input object: left out (`undefined`), sent as
      `null`, or given a value. The resolvers tell the first two apart in
      one place only (`isActive === undefined`); `?? undefined` treats both
      as "keep the stored value". */
  datatype Field<+T> = Absent | Null | Given(value: T)

  /** `field ?? undefined` written into a row: the given value, or the
      stored one when the field is absent or null. */
  function KeepIfAbsent<T>(field: Field<T>, stored: T): T
  {
    if field.Given? then field.value else stored
  }

  /** The `extensions.code` values of the resolvers' GraphQL errors, plus
      `StoreError` for an exception the store raises itself (a missing
      row, a violated unique or foreign-key constraint). */
  datatype Code = BadRequest | Unauthorized | NotFound | ServerError | StoreError

  datatype Error = Error(code: Code, message: string)

  datatype Result<+T> = Ok(value: T) | Err(error: Error)

  /** `findUnique` by primary key: the row stored under `key`, if any. */
  function Get<K, V>(m: map<K, V>, key: K): (r: Option<V>)
    ensures r.Some? <==> key in m
    ensures r.Some? ==> r.value == m[key]
  {
    if key in m then Some(m[key]) else None
  }

  predicate NoDuplicates<T(==)>(s: seq<T>)
  {
    forall i, j :: 0 <= i < j < |s| ==> s[i] != s[j]
  }

  /** A JavaScript number as far as the model needs one: `NaN` or an
      integer value. */
  datatype JsNumber = NaN | Num(value: int)

  /** JavaScript truthiness of a number: `0` and `NaN` are falsy. */
  predicate TruthyNumber(n: JsNumber)
  {
    n.Num? && n.value != 0
  }

  /** The order in which a `findMany` returns the rows of `table`: every
      key exactly once. The order itself is the store's choice. */
  ghost predicate RowOrder<V>(rows: seq<int>, table: map<int, V>)
  {
    && NoDuplicates(rows)
    && (forall k :: k in rows ==> k in table)
    && (forall k :: k in table ==> k in rows)
  }

  /** `a` is `b` with some elements left out, the rest in order. */
  predicate IsSubsequence<T(==)>(a: seq<T>, b: seq<T>)
    decreases |b|
  {
    if a == [] then true
    else if b == [] then false
    else if a[0] == b[0] then IsSubsequence(a[1..], b[1..])
    else IsSubsequence(a, b[1..])
  }

  /** A `findMany` with a `where` clause: the rows of `rows` that `keep`
      accepts, in row order. */
  function Filter(rows: seq<int>, keep: int -> bool): (r: seq<int>)
    ensures forall k :: k in r <==> k in rows && keep(k)
    ensures IsSubsequence(r, rows)
  {
    if rows == [] then []
    else if keep(rows[0]) then [rows[0]] + Filter(rows[1..], keep)
    else Filter(rows[1..], keep)
  }
}

/** The three stored records of the inventory application and the small
    conversions the request handlers apply to form input. */
module Models {
  import opened Base

  /** A Product or Location row without its key: the registry maps the
      primary key (`product_id` / `location_id`) to the rest of the row.
      `name` is NOT NULL; `description` is a nullable text column. */
  datatype Entity = Entity(name: string, description: Option<string>)

  /** All rows of the `product` or of the `location` table, by primary key. */
  type Registry = map<string, Entity>

  /** A `ProductMovement` row. Timestamps are microseconds since the epoch
      (`datetime` resolution); `qty` is a 64-bit INTEGER column. */
  datatype Movement = Movement(
    movementId: string,
    timestamp: int,
    productId: string,
    fromLocation: Option<string>,
    toLocation: Option<string>,
    qty: int)

  /** The ledger: every `ProductMovement` row. */
  type Ledger = seq<Movement>

  /** Smallest and largest value of SQLite's 64-bit INTEGER column type. */
  const MinInt64: int := -0x8000_0000_0000_0000
  const MaxInt64: int := 0x7FFF_FFFF_FFFF_FFFF

  /** The driver can bind `x` to an INTEGER column; outside this range it
      raises `OverflowError` and the statement is never executed. */
  predicate InInt64(x: int)
  {
    MinInt64 <= x <= MaxInt64
  }

  /** Why a registry or ledger update was refused: a primary-key clash on
      insert, an unknown key on edit (`get_or_404`), or a quantity the
      64-bit column cannot hold. */
  datatype Error = DuplicateKey | NotFound | Overflow

  /** Whether an update committed. A refused update changes nothing. */
  datatype Outcome = Ok | Failed(error: Error)

  /** Python truthiness of a nullable string column (`if movement.to_location:`):
      both `None` and the empty string are false. */
  predicate Present(o: Option<string>)
  {
    o.Some? && o.value != ""
  }

  /** `request.form[f] if request.form[f] else None`: an empty form field is
      stored as NULL. */
  function FormEndpoint(field: string): (o: Option<string>)
    ensures o.None? <==> field == ""
    ensures field != "" ==> o == Some(field)
    ensures Present(o) <==> field != ""
  {
    if field == "" then None else Some(field)
  }

  /** `names.get(id, id)`: the registered display name, or the raw identifier
      when the registry has no row for it. */
  function NameOf(registry: Registry, id: string): (name: string)
    ensures id in registry ==> name == registry[id].name
    ensures id !in registry ==> name == id
  {
    if id in registry then registry[id].name else id
  }

  /** Form-built endpoints are never the empty string: they are NULL or a
      non-empty identifier. */
  predicate NormalEndpoints(m: Movement)
  {
    && (m.fromLocation.Some? ==> m.fromLocation.value != "")
    && (m.toLocation.Some? ==> m.toLocation.value != "")
  }
}

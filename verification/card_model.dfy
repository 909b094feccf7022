/**
  The card entity and the request body that the card handlers read.

  A card row has a system-assigned integer id, four optional text fields
  (title, description, status, priority; create copies them with
  `body.get`), the creation date and the id of the owning user. The store is
  the cards table keyed by primary key.
 */
module CardModel {

  /** An optional value: `None` is Python's `None` (an absent key or a null). */
  datatype Option<+T> = None | Some(value: T)

  /** A calendar date as a day number (the ordinal of the date), so that
      comparing dates is comparing integers. */
  type Date = int

  type CardId = int

  type UserId = int

  datatype Card = Card(
    id: CardId,
    title: Option<string>,
    description: Option<string>,
    date: Date,
    status: Option<string>,
    priority: Option<string>,
    userId: UserId
  )

  /** The cards table: primary key to row. */
  type Store = map<CardId, Card>

  /** The primary-key invariant: every row is stored under its own id. */
  predicate WellFormed(s: Store) {
    forall k :: k in s ==> s[k].id == k
  }

  /** The deserialised request body. Every key is optional; `id`, `date` and
      `userId` stand for whatever else the client sent, which the handlers
      never read. */
  datatype CardBody = CardBody(
    id: Option<CardId>,
    title: Option<string>,
    description: Option<string>,
    date: Option<Date>,
    status: Option<string>,
    priority: Option<string>,
    userId: Option<UserId>
  )

  /** The body `{}`. */
  const EmptyBody: CardBody := CardBody(None, None, None, None, None, None, None)

  /** Python truthiness of an optional string: `None` and `""` are falsy. */
  predicate Truthy(v: Option<string>) {
    v.Some? && v.value != ""
  }
}

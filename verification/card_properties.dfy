/**
  Properties that relate several calls of the card handlers: the laws of the
  partial-update merge, round trips between handlers, and the primary-key
  invariant that every handler keeps.
 */
module CardProperties {
  import opened CardModel
  import opened Ordering
  import opened CardController

  // ---------------------------------------------------------------------
  // The partial-update merge
  // ---------------------------------------------------------------------

  /** The body `{}` changes nothing. */
  lemma EmptyBodyKeepsCard(c: Card)
    ensures ApplyUpdate(c, EmptyBody) == c
  {
  }

  /** Applying the same body twice is applying it once. */
  lemma ApplyUpdateIdempotent(c: Card, body: CardBody)
    ensures ApplyUpdate(ApplyUpdate(c, body), body) == ApplyUpdate(c, body)
  {
  }

  /** A field that holds a non-empty value keeps one: sending `""` or `null`
      cannot clear it. */
  lemma UpdateCannotClear(c: Card, body: CardBody)
    ensures Truthy(c.title) ==> Truthy(ApplyUpdate(c, body).title)
    ensures Truthy(c.description) ==> Truthy(ApplyUpdate(c, body).description)
    ensures Truthy(c.status) ==> Truthy(ApplyUpdate(c, body).status)
    ensures Truthy(c.priority) ==> Truthy(ApplyUpdate(c, body).priority)
  {
  }

  /** A falsy body field is the same as leaving the key out. */
  lemma FalsyFieldIsIgnored(c: Card, body: CardBody)
    ensures !Truthy(body.title) ==> ApplyUpdate(c, body) == ApplyUpdate(c, body.(title := None))
    ensures !Truthy(body.description) ==>
              ApplyUpdate(c, body) == ApplyUpdate(c, body.(description := None))
    ensures !Truthy(body.status) ==> ApplyUpdate(c, body) == ApplyUpdate(c, body.(status := None))
    ensures !Truthy(body.priority) ==> ApplyUpdate(c, body) == ApplyUpdate(c, body.(priority := None))
  {
  }

  /** The body that one request would need to have the effect of `first`
      followed by `second`: `second`'s truthy fields over `first`'s. */
  function Overlay(first: CardBody, second: CardBody): (b: CardBody)
    ensures Truthy(b.title) <==> Truthy(first.title) || Truthy(second.title)
    ensures Truthy(b.description) <==> Truthy(first.description) || Truthy(second.description)
    ensures Truthy(b.status) <==> Truthy(first.status) || Truthy(second.status)
    ensures Truthy(b.priority) <==> Truthy(first.priority) || Truthy(second.priority)
  {
    first.(title := MergeField(second.title, first.title),
           description := MergeField(second.description, first.description),
           status := MergeField(second.status, first.status),
           priority := MergeField(second.priority, first.priority))
  }

  /** Two successive partial updates compose into one. */
  lemma SuccessiveUpdatesCompose(c: Card, first: CardBody, second: CardBody)
    ensures ApplyUpdate(ApplyUpdate(c, first), second) == ApplyUpdate(c, Overlay(first, second))
  {
  }

  // ---------------------------------------------------------------------
  // Round trips between handlers
  // ---------------------------------------------------------------------

  /** Reading back a created card returns what the create answered. */
  lemma GetAfterCreate(s: Store, caller: UserId, today: Date, freshId: CardId, body: CardBody)
    requires freshId !in s
    ensures GetCard(CreateCard(s, caller, today, freshId, body).store, freshId).response
            == CreateCard(s, caller, today, freshId, body).response
  {
  }

  /** Deleting the card just created restores the table and reports the
      title the body gave. */
  lemma DeleteUndoesCreate(s: Store, caller: UserId, today: Date, freshId: CardId, body: CardBody)
    requires freshId !in s
    ensures var created := CreateCard(s, caller, today, freshId, body);
      && DeleteCard(created.store, freshId).store == s
      && DeleteCard(created.store, freshId).response == Deleted(body.title)
  {
  }

  /** A deleted id is gone for reads and for a second delete. */
  lemma NothingAfterDelete(s: Store, id: CardId)
    ensures GetCard(DeleteCard(s, id).store, id).response == NotFound(id)
    ensures DeleteCard(DeleteCard(s, id).store, id).response == NotFound(id)
    ensures DeleteCard(DeleteCard(s, id).store, id).store == DeleteCard(s, id).store
  {
  }

  /** Reading back an allowed update returns what the update answered; a
      refused or missed update leaves the read unchanged. */
  lemma GetAfterUpdate(s: Store, caller: UserId, isAdmin: bool, id: CardId, body: CardBody)
    ensures var updated := UpdateCard(s, caller, isAdmin, id, body);
      updated.response.Ok? ==> GetCard(updated.store, id).response == updated.response
    ensures var updated := UpdateCard(s, caller, isAdmin, id, body);
      !updated.response.Ok? ==> GetCard(updated.store, id) == GetCard(s, id)
  {
  }

  /** Repeating an update request is harmless: same answer, same table. */
  lemma UpdateIdempotent(s: Store, caller: UserId, isAdmin: bool, id: CardId, body: CardBody)
    ensures var once := UpdateCard(s, caller, isAdmin, id, body);
      UpdateCard(once.store, caller, isAdmin, id, body) == once
  {
  }

  /** An update with the body `{}` changes no row. */
  lemma EmptyUpdateKeepsStore(s: Store, caller: UserId, isAdmin: bool, id: CardId)
    ensures UpdateCard(s, caller, isAdmin, id, EmptyBody).store == s
  {
  }

  /** The creator of a card passes the owner-or-admin check of an update
      without being an admin. */
  lemma CreatorMayUpdate(s: Store, caller: UserId, today: Date, freshId: CardId,
                         body: CardBody, change: CardBody)
    requires freshId !in s
    ensures var created := CreateCard(s, caller, today, freshId, body);
      UpdateCard(created.store, caller, false, freshId, change).response.Ok?
  {
  }

  /** Any other caller who is not an admin fails that check. */
  lemma OthersMayNotUpdate(s: Store, caller: UserId, other: UserId, today: Date, freshId: CardId,
                           body: CardBody, change: CardBody)
    requires freshId !in s
    requires other != caller
    ensures var created := CreateCard(s, caller, today, freshId, body);
      UpdateCard(created.store, other, false, freshId, change) == Outcome(Forbidden, created.store)
  {
  }

  /** A listing taken after a create holds the new card and one more row. */
  lemma ListAfterCreate(s: Store, caller: UserId, today: Date, freshId: CardId, body: CardBody)
    requires WellFormed(s)
    requires freshId !in s
    ensures var created := CreateCard(s, caller, today, freshId, body);
      WellFormed(created.store) &&
      created.response.card in GetAllCards(created.store).response.cards &&
      |GetAllCards(created.store).response.cards| == |s| + 1
  {
  }

  // ---------------------------------------------------------------------
  // The primary-key invariant
  // ---------------------------------------------------------------------

  lemma CreateKeepsWellFormed(s: Store, caller: UserId, today: Date, freshId: CardId, body: CardBody)
    requires WellFormed(s)
    requires freshId !in s
    ensures WellFormed(CreateCard(s, caller, today, freshId, body).store)
  {
  }

  lemma UpdateKeepsWellFormed(s: Store, caller: UserId, isAdmin: bool, id: CardId, body: CardBody)
    requires WellFormed(s)
    ensures WellFormed(UpdateCard(s, caller, isAdmin, id, body).store)
  {
  }

  lemma DeleteKeepsWellFormed(s: Store, id: CardId)
    requires WellFormed(s)
    ensures WellFormed(DeleteCard(s, id).store)
  {
  }
}

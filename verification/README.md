# Trello cards: the card handlers as a verified state machine

This project models the card resource of a small task-tracking REST API
(`controllers/card_controller.py`). The handlers list, read, create,
partially update and delete cards. The model treats the cards table as a
value `map<CardId, Card>`. Each handler is a pure function. It takes the
table and the request's inputs and returns an `Outcome`: the response tag
(`Ok(card)`, `OkList(cards)`, `NotFound(id)`, `Forbidden`, `Deleted(title)`)
and the table after the request.

Inputs that the running service gets from its environment are parameters:

- the caller identity (the JWT subject);
- the admin flag;
- today's date;
- the id the database assigns to a new row (any key not yet in the table).

Files:

- `card_model.dfy` (module `CardModel`): the `Card` row, the request body
  `CardBody`, the store, the primary-key invariant `WellFormed` (every row is
  stored under its own id) and Python truthiness of an optional string.
- `ordering.dfy` (module `Ordering`): enumeration of the keys in ascending
  order, and a stable insertion sort of cards by date, most recent first.
- `card_controller.dfy` (module `CardController`): the five handlers and
  the partial-update merge.
- `card_properties.dfy` (module `CardProperties`): laws of the merge, round
  trips between handlers, and preservation of the primary-key invariant.

Dates are day numbers (a date's ordinal), so ordering dates is ordering
integers. The four text fields are `Option<string>` because create copies
`body.get(...)`, which is `None` for an absent key. The title is required by
schema validation, which is left out, so the model also admits a card with no
title; every contract holds whether a title is present or not.

## Model

| member | source | states |
|---|---|---|
| CardController.GetAllCards | controllers/card_controller.py:23-26 | the listing holds every stored card exactly once: as many as there are rows, each one a stored row, no id twice. Dates never increase along it, cards of the same date come by ascending id, and the table is unchanged |
| Ordering.SortByDateDesc | controllers/card_controller.py:24 | the result is a permutation of the input (same multiset) ordered by date, most recent first |
| Ordering.SortStable | controllers/card_controller.py:24 | sorting rows read in ascending id order lists cards of the same date by ascending id, a deterministic tie-break on the primary key |
| Ordering.NewerFirst | controllers/card_controller.py:24 | in a most-recent-first sequence such as the listing, of two cards with different dates the more recent one has the smaller position |
| CardController.GetCard | controllers/card_controller.py:30-37 | a stored id yields that row, an absent id yields `NotFound` carrying the id; the table is unchanged either way |
| CardController.CreateCard | controllers/card_controller.py:42-58 | exactly the fresh key is added and every old row is kept. The new row's owner is the caller and its date is today, whatever the body says. Its four text fields are copied from the body, with absent ones null. The response is the new row |
| CardController.ApplyUpdate | controllers/card_controller.py:108-111 | each of title, description, status and priority takes the body's value when that value is truthy and keeps the old one otherwise; id, date and owner never change |
| CardController.UpdateCard | controllers/card_controller.py:91-119 | an absent id answers `NotFound` with the table unchanged. A caller who is neither admin nor owner gets `Forbidden` with the table unchanged. Success happens exactly when the id exists and the caller is admin or owner; it stores the merged row and changes no other row |
| CardController.DeleteCard | controllers/card_controller.py:64-85 | a stored id is removed, and only that key; its title is reported and every other row is kept. An absent id answers `NotFound` with the table unchanged |
| CardProperties.EmptyBodyKeepsCard | controllers/card_controller.py:108-111 | the merge with the body `{}` is the identity |
| CardProperties.ApplyUpdateIdempotent | controllers/card_controller.py:108-111 | merging the same body twice equals merging it once |
| CardProperties.UpdateCannotClear | controllers/card_controller.py:108-111 | a field holding a non-empty value still holds one after any update: an empty string or null in the body cannot clear it |
| CardProperties.FalsyFieldIsIgnored | controllers/card_controller.py:108-111 | for each of title, description, status and priority, a falsy body value has the same effect as leaving the key out |
| CardProperties.Overlay | controllers/card_controller.py:108-111 | the combined body has a truthy field exactly when one of the two bodies has |
| CardProperties.SuccessiveUpdatesCompose | controllers/card_controller.py:108-111 | two successive merges equal one merge with the second body's truthy fields laid over the first's |
| CardProperties.GetAfterCreate | controllers/card_controller.py:44-58 | reading the new id after a create returns the card the create answered with |
| CardProperties.DeleteUndoesCreate | controllers/card_controller.py:74-81 | deleting the card just created restores the original table and reports the body's title |
| CardProperties.NothingAfterDelete | controllers/card_controller.py:74-85 | after a delete, reading that id and deleting it again both answer `NotFound`, and the second delete changes nothing |
| CardProperties.GetAfterUpdate | controllers/card_controller.py:102-119 | after an allowed update a read returns the updated card; after a refused or missed update a read returns what it returned before |
| CardProperties.UpdateIdempotent | controllers/card_controller.py:102-115 | repeating an update request gives the same answer and the same table |
| CardProperties.EmptyUpdateKeepsStore | controllers/card_controller.py:102-115 | an update with the body `{}` leaves the table unchanged, whoever asks |
| CardProperties.CreatorMayUpdate | controllers/card_controller.py:52 | the creator of a card passes the owner-or-admin check on update without being an admin |
| CardProperties.OthersMayNotUpdate | controllers/card_controller.py:104-106 | any other non-admin caller is refused on the new card and the table is unchanged |
| CardProperties.ListAfterCreate | controllers/card_controller.py:24-25 | after a create, the listing contains the new card and has one more entry than the table had before |
| CardProperties.CreateKeepsWellFormed | controllers/card_controller.py:46-56 | create keeps every row stored under its own id |
| CardProperties.UpdateKeepsWellFormed | controllers/card_controller.py:107-113 | update keeps every row stored under its own id |
| CardProperties.DeleteKeepsWellFormed | controllers/card_controller.py:79-80 | delete keeps every row stored under its own id |

## Left out

- HTTP routing, blueprints and status codes are not modelled. Responses are tags. In the source, the refused update at line 106 returns its error body with the default status 200. Create answers 200, not 201.
- JWT verification is left out. The caller identity is an integer parameter. The source compares `str(card.user_id)` with the identity string (line 104); the model compares integers.
- The unbound `is_admin` at line 104 is replaced by an `isAdmin` parameter. Its assignment is commented out at lines 98-100, so as written the line raises a `NameError` whenever the card exists. The model does not reproduce that error.
- `auth_as_admin_decorator` wraps both delete and update (lines 63 and 90). It is defined in a module that is not part of this model, so its gating is not modelled. Neither is the admin-only rule for delete that it presumably enforces.
- Schema loading and validation (`card_schema.load`) is left out. This includes the required title on create and the 400 on a bad body. The body is taken as already deserialised, with every key optional.
- Database sessions, commits and SQL are replaced by map operations. The database's choice of a new id is the `freshId` parameter, and `date.today()` is the `today` parameter.
- CardController.GetAllCards: requires `WellFormed`, the primary-key invariant of the table. Every handler is proved to keep it. The source's `ORDER BY date DESC` leaves the order of same-date cards unspecified. The model lists them in ascending id order, proved as part of the listing's contract; this is one of the orders the database may return.
- Comments (`models/comment.py`) are column and relationship declarations with no behaviour. Cascade deletion of a card's comments is not visible in the card handlers, so it is not modelled.
- The repository's `models/card.py` (the `Card` columns and schemas) is not part of this model. The fields follow the constructor call at lines 46-53.

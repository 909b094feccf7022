/**
  The five card handlers as pure transitions over the cards table.

  Each handler takes the table and the request's inputs and returns the
  response it sends together with the table after the request. The caller's
  identity, the admin flag, today's date and the id the database assigns to
  a new row are inputs rather than effects.
 */
module CardController {
  import opened CardModel
  import opened Ordering

  /** What a handler answers, without HTTP status codes. */
  datatype Response =
    | Ok(card: Card)
    | OkList(cards: seq<Card>)
    | NotFound(id: CardId)
    | Forbidden
    | Deleted(title: Option<string>)

  datatype Outcome = Outcome(response: Response, store: Store)

  /** Facts about the rows of a well-formed table read in key order. */
  lemma {:induction false} KeyOrderedRows(s: Store, ks: seq<CardId>, rows: seq<Card>)
    requires WellFormed(s)
    requires Ascending(ks)
    requires forall i :: 0 <= i < |ks| ==> ks[i] in s
    requires forall k :: k in s ==> k in ks
    requires |rows| == |ks| && forall i :: 0 <= i < |ks| ==> rows[i] == s[ks[i]]
    ensures Distinct(rows)
    ensures IdAscending(rows)
    ensures forall y :: y in rows ==> y.id in s && s[y.id] == y
    ensures forall k :: k in s ==> s[k] in rows
  {
    forall i, j | 0 <= i < j < |rows| ensures rows[i].id < rows[j].id {
      assert rows[i].id == ks[i];
      assert rows[j].id == ks[j];
    }
    forall y | y in rows ensures y.id in s && s[y.id] == y {
      var i :| 0 <= i < |rows| && rows[i] == y;
      assert y.id == ks[i];
    }
    forall k | k in s ensures s[k] in rows {
      var i :| 0 <= i < |ks| && ks[i] == k;
      assert rows[i] == s[k];
    }
  }

  /** Sorting the key-ordered rows by date keeps each of them exactly once. */
  lemma {:induction false} SortedRows(s: Store, rows: seq<Card>)
    requires Distinct(rows)
    requires forall y :: y in rows ==> y.id in s && s[y.id] == y
    requires forall k :: k in s ==> s[k] in rows
    ensures var cards := SortByDateDesc(rows);
      && |cards| == |rows|
      && (forall i :: 0 <= i < |cards| ==> cards[i].id in s && s[cards[i].id] == cards[i])
      && (forall k :: k in s ==> s[k] in cards)
      && (forall i, j :: 0 <= i < j < |cards| ==> cards[i].id != cards[j].id)
  {
    var cards := SortByDateDesc(rows);
    SortKeepsDistinct(rows);
    assert |multiset(cards)| == |multiset(rows)|;
    forall i | 0 <= i < |cards| ensures cards[i].id in s && s[cards[i].id] == cards[i] {
      assert cards[i] in rows;
    }
    forall i, j | 0 <= i < j < |cards| ensures cards[i].id != cards[j].id {
      assert cards[i] in rows && cards[j] in rows;
    }
  }

  /** GET /cards: every stored card exactly once, most recent first, cards of
      the same date by ascending id. */
  function GetAllCards(s: Store): (out: Outcome)
    requires WellFormed(s)
    ensures out.store == s
    ensures out.response.OkList?
    ensures |out.response.cards| == |s|
    ensures forall i :: 0 <= i < |out.response.cards| ==>
              var c := out.response.cards[i]; c.id in s && s[c.id] == c
    ensures forall k :: k in s ==> s[k] in out.response.cards
    ensures forall i, j :: 0 <= i < j < |out.response.cards| ==>
              out.response.cards[i].id != out.response.cards[j].id
    ensures DateDescending(out.response.cards)
    ensures TiesByAscendingId(out.response.cards)
  {
    var ks := SortedKeys(s.Keys);
    var rows := seq(|ks|, i requires 0 <= i < |ks| => s[ks[i]]);
    KeyOrderedRows(s, ks, rows);
    SortedRows(s, rows);
    SortStable(rows);
    Outcome(OkList(SortByDateDesc(rows)), s)
  }

  /** GET /cards/<id>. */
  function GetCard(s: Store, id: CardId): (out: Outcome)
    ensures out.store == s
    ensures id in s ==> out.response == Ok(s[id])
    ensures id !in s ==> out.response == NotFound(id)
  {
    if id in s then Outcome(Ok(s[id]), s) else Outcome(NotFound(id), s)
  }

  /** POST /cards: the row takes its text fields from the body and its date
      and owner from the server; `freshId` is the key the database assigns. */
  function CreateCard(s: Store, caller: UserId, today: Date, freshId: CardId, body: CardBody): (out: Outcome)
    requires freshId !in s
    ensures out.store.Keys == s.Keys + {freshId}
    ensures forall k :: k in s ==> out.store[k] == s[k]
    ensures out.response == Ok(out.store[freshId])
    ensures out.store[freshId].id == freshId
    ensures out.store[freshId].userId == caller
    ensures out.store[freshId].date == today
    ensures out.store[freshId].title == body.title
    ensures out.store[freshId].description == body.description
    ensures out.store[freshId].status == body.status
    ensures out.store[freshId].priority == body.priority
  {
    var card := Card(freshId, body.title, body.description, today, body.status, body.priority, caller);
    Outcome(Ok(card), s[freshId := card])
  }

  /** Python's `new or current` on an optional string. */
  function MergeField(update: Option<string>, current: Option<string>): Option<string> {
    if Truthy(update) then update else current
  }

  /** The partial-update merge: a text field takes the body's value when that
      value is truthy and keeps its own otherwise; nothing else changes. */
  function ApplyUpdate(c: Card, body: CardBody): (r: Card)
    ensures r.id == c.id && r.date == c.date && r.userId == c.userId
    ensures Truthy(body.title) ==> r.title == body.title
    ensures !Truthy(body.title) ==> r.title == c.title
    ensures Truthy(body.description) ==> r.description == body.description
    ensures !Truthy(body.description) ==> r.description == c.description
    ensures Truthy(body.status) ==> r.status == body.status
    ensures !Truthy(body.status) ==> r.status == c.status
    ensures Truthy(body.priority) ==> r.priority == body.priority
    ensures !Truthy(body.priority) ==> r.priority == c.priority
  {
    c.(title := MergeField(body.title, c.title),
       description := MergeField(body.description, c.description),
       status := MergeField(body.status, c.status),
       priority := MergeField(body.priority, c.priority))
  }

  /** PUT/PATCH /cards/<id>: look the card up, then let only an admin or the
      owner change it. */
  function UpdateCard(s: Store, caller: UserId, isAdmin: bool, id: CardId, body: CardBody): (out: Outcome)
    ensures id !in s ==> out == Outcome(NotFound(id), s)
    ensures id in s && !isAdmin && s[id].userId != caller ==> out == Outcome(Forbidden, s)
    ensures out.response.Ok? <==> id in s && (isAdmin || s[id].userId == caller)
    ensures out.response.Ok? ==>
              out.response.card == ApplyUpdate(s[id], body) &&
              out.store == s[id := out.response.card]
    ensures out.store.Keys == s.Keys
    ensures forall k :: k in s && k != id ==> out.store[k] == s[k]
    ensures id in s ==>
              out.store[id].id == s[id].id &&
              out.store[id].date == s[id].date &&
              out.store[id].userId == s[id].userId
  {
    if id !in s then Outcome(NotFound(id), s)
    // The handler reads an `is_admin` that is never assigned (the call that
    // computed it is commented out); here the admin flag is an input.
    else if !isAdmin && s[id].userId != caller then Outcome(Forbidden, s)
    else
      var updated := ApplyUpdate(s[id], body);
      Outcome(Ok(updated), s[id := updated])
  }

  /** DELETE /cards/<id>: remove exactly that row and report its title. */
  function DeleteCard(s: Store, id: CardId): (out: Outcome)
    ensures id in s ==> out.response == Deleted(s[id].title)
    ensures id in s ==> out.store.Keys == s.Keys - {id}
    ensures forall k :: k in out.store ==> k in s && out.store[k] == s[k]
    ensures id !in s ==> out == Outcome(NotFound(id), s)
  {
    if id in s then Outcome(Deleted(s[id].title), s - {id}) else Outcome(NotFound(id), s)
  }
}

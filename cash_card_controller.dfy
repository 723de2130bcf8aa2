/** The request handler for `/cashcards`: every operation takes the authenticated
    caller's name and reads or changes only cards that caller owns. A card of
    another owner is reported exactly like a missing one. */
module Controller {

  import opened Wrappers
  import opened CashCards
  import opened Paging
  import opened Repository

  /** The outcome of a request: 200 with a card or a list, 201 with the new card's
      id (the Location header), 204, or 404. */
  datatype Response =
    | Ok(card: CashCard)
    | OkList(cards: seq<CashCard>)
    | Created(id: int)
    | NoContent
    | NotFound

  class CashCardController {
    const repository: CashCardRepository

    ghost predicate Valid()
      reads this, repository
    {
      repository.Valid()
    }

    constructor (repository: CashCardRepository)
      requires repository.Valid()
      ensures Valid() && this.repository == repository
    {
      this.repository := repository;
    }

    /** `findCashCard`: the caller's card with this id, if the caller has one. */
    method FindCashCard(requestedId: int, principal: string) returns (card: Option<CashCard>)
      requires Valid()
      ensures card == FindByIdAndOwner(repository.table, requestedId, principal)
    {
      card := FindByIdAndOwner(repository.table, requestedId, principal);
    }

    /** GET /cashcards/{id}: 200 with the card when it is stored and the caller owns
        it; 404 otherwise, also when it is stored but owned by someone else. */
    method FindById(requestedId: int, principal: string) returns (resp: Response)
      requires Valid()
      ensures resp.Ok? || resp.NotFound?
      ensures resp.Ok? <==> requestedId in repository.table && repository.table[requestedId].owner == Some(principal)
      ensures resp.Ok? ==> resp.card == repository.table[requestedId] && resp.card.id == Some(requestedId)
    {
      var cashCard := FindCashCard(requestedId, principal);
      if cashCard.Some? {
        resp := Ok(cashCard.value);
      } else {
        resp := NotFound;
      }
    }

    /** POST /cashcards: the request's id and owner are discarded; the card is
        stored under a new id with the request's amount and the caller as owner,
        and 201 carries that id. The caller can then get the card by that id. No
        other card changes. */
    method CreateCashCard(request: CashCard, principal: string) returns (resp: Response)
      requires Valid()
      modifies repository
      ensures Valid()
      ensures resp.Created?
      ensures resp.id !in old(repository.table)
      ensures repository.table == old(repository.table)[resp.id := CashCard(Some(resp.id), request.amount, Some(principal))]
      ensures FindByIdAndOwner(repository.table, resp.id, principal) == Some(CashCard(Some(resp.id), request.amount, Some(principal)))
      ensures repository.nextId == old(repository.nextId) + 1
      ensures forall q :: q != principal ==> SameCardsOf(old(repository.table), repository.table, q)
    {
      var cashCardWithOwner := CashCard(None, request.amount, Some(principal));
      var savedCashCard := repository.Save(cashCardWithOwner);
      resp := Created(savedCashCard.value.id.value);
    }

    /** GET /cashcards?page&size&sort: one page of the caller's cards, sorted as the
        request asks or, when it names no order, by amount ascending. */
    method FindAll(pageable: Pageable, principal: string) returns (resp: Response)
      requires Valid()
      ensures resp.OkList?
      ensures resp.cards == FindByOwner(repository.table, repository.nextId, principal,
                                        PageRequest(pageable.pageNumber, pageable.pageSize, SortOr(pageable, DefaultSort)))
      ensures forall c :: c in resp.cards ==> Stored(repository.table, c) && c.owner == Some(principal)
      ensures |resp.cards| <= pageable.pageSize
      ensures pageable.sort.Some? ==> SortedBy(resp.cards, pageable.sort.value)
      ensures pageable.sort.None? ==> SortedBy(resp.cards, Order(Asc, Amount))
    {
      var page := FindByOwner(repository.table, repository.nextId, principal,
                              PageRequest(pageable.pageNumber, pageable.pageSize, SortOr(pageable, DefaultSort)));
      resp := OkList(page);
    }

    /** PUT /cashcards/{id}: when the caller owns the card, only its amount is
        replaced (id and owner stay) and the answer is 204; otherwise 404 and the
        store is unchanged. */
    method PutCashCard(requestedId: int, cashCardUpdate: CashCard, principal: string) returns (resp: Response)
      requires Valid()
      modifies repository
      ensures Valid()
      ensures resp.NoContent? || resp.NotFound?
      ensures resp.NoContent? <==> old(ExistsByIdAndOwner(repository.table, requestedId, principal))
      ensures resp.NoContent? ==>
        repository.table == old(repository.table)[requestedId := old(repository.table)[requestedId].(amount := cashCardUpdate.amount)]
      ensures resp.NotFound? ==> repository.table == old(repository.table)
      ensures repository.nextId == old(repository.nextId)
      ensures forall q :: q != principal ==> SameCardsOf(old(repository.table), repository.table, q)
    {
      var cashCard := FindCashCard(requestedId, principal);
      if cashCard.Some? {
        var updatedCashCard := CashCard(Some(requestedId), cashCardUpdate.amount, Some(principal));
        var _ := repository.Save(updatedCashCard);
        resp := NoContent;
      } else {
        resp := NotFound;
      }
    }

    /** DELETE /cashcards/{id}: when the caller owns the card it is removed and the
        answer is 204; otherwise 404 and the store is unchanged. */
    method DeleteCashCard(id: int, principal: string) returns (resp: Response)
      requires Valid()
      modifies repository
      ensures Valid()
      ensures resp.NoContent? || resp.NotFound?
      ensures resp.NoContent? <==> old(ExistsByIdAndOwner(repository.table, id, principal))
      ensures resp.NoContent? ==> repository.table == old(repository.table) - {id}
      ensures resp.NotFound? ==> repository.table == old(repository.table)
      ensures repository.nextId == old(repository.nextId)
      ensures forall q :: q != principal ==> SameCardsOf(old(repository.table), repository.table, q)
    {
      if ExistsByIdAndOwner(repository.table, id, principal) {
        repository.DeleteById(id);
        resp := NoContent;
      } else {
        resp := NotFound;
      }
    }
  }

}

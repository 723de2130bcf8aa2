# Cash cards: owner-scoped records, modelled in Dafny

The system is a small HTTP API over "cash cards": records with an id, an amount and
an owner. Every request carries the authenticated caller's name. The handler only
ever reads, changes or deletes cards that the caller owns, and it answers a request
for someone else's card exactly like a request for a missing one. The list endpoint
filters the caller's cards, sorts them (by amount ascending when the request names no
order) and cuts out one page.

The model has these parts:

- `cash_card.dfy` (module `CashCards`): the record, `CashCard(id, amount, owner)`.
- `paging.dfy` (module `Paging`): sort orders, page requests, and the sort-then-slice
  that a list query performs.
- `cash_card_repository.dfy` (module `Repository`): the store. Its table is a
  `map<int, CashCard>` keyed by card id, and `nextId` is the id the next new card
  gets. The derived queries `findByIdAndOwner`, `existsByIdAndOwner` and
  `findByOwner` are functions over the table. The inherited `save` and `deleteById`
  are methods of the class `CashCardRepository`, which change the table in place.
  The lemmas state owner isolation and the paging properties.
- `cash_card_controller.dfy` (module `Controller`): the class `CashCardController`
  holds the store. It has one method per handler operation, each returning a
  `Response`: `Ok(card)`, `OkList(cards)`, `Created(id)`, `NoContent` or `NotFound`.
- `scenarios.dfy` (module `Scenarios`): the integration tests restated as client
  methods over the seeded store (cards 99, 100 and 101 of sarah1, card 102 of
  kumar2). Each assertion in them follows from the contracts above.

The store's invariant (`CashCardRepository.Valid`) says that every card is stored
under its own id and that every id is below `nextId`. So a new card's id is never in
use. The list query scans ids from 0 up to `nextId`. That scan order is ascending id,
which is where the model's tie order among equal sort keys comes from. The contracts
promise only that a page is sorted and drawn from the owner's cards, not any tie
order.

The code hands ordering to the database and asks for no tie-break
(`Sort.by(ASC, "amount")`), so the model promises no tie order.

## Model

| member | source | states |
|---|---|---|
| `Repository.FindByIdAndOwner` | src/main/kotlin/name/seguri/springacademy/cashcards/CashCardRepository.kt:12 | A card is found exactly when some table entry holds a card with that id and that owner. The found card is the one stored under that id, and its owner is the caller. |
| `Repository.ExistsByIdAndOwner` | src/main/kotlin/name/seguri/springacademy/cashcards/CashCardRepository.kt:16 | True exactly when `FindByIdAndOwner` finds a card for the same id and owner. |
| `Repository.OwnedCards` | src/main/kotlin/name/seguri/springacademy/cashcards/CashCardRepository.kt:14 | The owner filter of `findByOwner`. Every card it yields is stored and belongs to the owner. Ids come out strictly ascending, so there are no duplicates. Every stored card of the owner with an id below the bound is included. |
| `Repository.FindByOwner` | src/main/kotlin/name/seguri/springacademy/cashcards/CashCardRepository.kt:14 | A page has at most `pageSize` cards. Each card is a stored card of the owner. The page is sorted by the requested order, and it is the requested slice of the owner's cards sorted by that order. |
| `Paging.Sort` | src/main/kotlin/name/seguri/springacademy/cashcards/CashCardRepository.kt:14 | The sort step of `findByOwner`. The result is ordered by the requested property and direction, and it is a permutation (same multiset) of the input. |
| `Paging.Slice` | src/main/kotlin/name/seguri/springacademy/cashcards/CashCardRepository.kt:14 | The paging step of `findByOwner`. It yields the elements in order from position `pageNumber * pageSize`: `pageSize` of them when that many remain, every remaining one on a short last page, and none when the page starts past the end. |
| `Repository.ListSeesOnlyOwnCards` | src/main/kotlin/name/seguri/springacademy/cashcards/CashCardRepository.kt:14 | Owner isolation of the list query. If two tables hold the same cards of an owner, every page that owner asks for is the same in both, whatever other owners hold and whatever the id counters are. |
| `Repository.LookupSeesOnlyOwnCards` | src/main/kotlin/name/seguri/springacademy/cashcards/CashCardRepository.kt:12-16 | Owner isolation of the single-card queries. If two tables hold the same cards of an owner, `findByIdAndOwner` and `existsByIdAndOwner` give that owner the same answer in both. |
| `Repository.ListOfOwnerWithoutCards` | src/main/kotlin/name/seguri/springacademy/cashcards/CashCardRepository.kt:14 | An owner with no stored card gets an empty page, whatever page number, size and order are asked for. |
| `Repository.OwnedCardsCount` | src/main/kotlin/name/seguri/springacademy/cashcards/CashCardRepository.kt:14 | Filtering the whole table finds exactly as many cards as the owner has ids in it. |
| `Repository.FirstPageHoldsAll` | src/test/kotlin/name/seguri/springacademy/cashcards/CashCardsApplicationTests.kt:72-84 | If the owner has no more cards than a page holds, page 0 holds every stored card of the owner exactly once (same multiset, same count) and nothing else. |
| `Repository.FirstOfOnePage` | src/test/kotlin/name/seguri/springacademy/cashcards/CashCardsApplicationTests.kt:86-112 | For an owner who has cards, a page of size 1 holds exactly one of them. That card comes before every other card of the owner in the requested order. With `amount,desc`, no card of the owner has a larger amount. |
| `Repository.CashCardRepository.Save` | src/main/kotlin/name/seguri/springacademy/cashcards/CashCardRepository.kt:11 | A card without an id is stored under `nextId`, which was unused. The returned card carries that id, and the counter advances. A card whose id is stored replaces that entry. A card with an id that is not stored is refused, and the store is unchanged. No other entry changes. |
| `Repository.CashCardRepository.DeleteById` | src/main/kotlin/name/seguri/springacademy/cashcards/CashCardRepository.kt:11 | The entry for the id is removed if present. Every other entry and the id counter stay as they were. |
| `Controller.CashCardController.FindCashCard` | src/main/kotlin/name/seguri/springacademy/cashcards/CashCardController.kt:83-85 | The result is `findByIdAndOwner` of the requested id and the caller's name on the current table. |
| `Controller.CashCardController.FindById` | src/main/kotlin/name/seguri/springacademy/cashcards/CashCardController.kt:17-28 | The answer is `Ok` exactly when the id is stored and the caller owns it, and it carries the stored card. Otherwise it is `NotFound`, including when another owner has the card. |
| `Controller.CashCardController.CreateCashCard` | src/main/kotlin/name/seguri/springacademy/cashcards/CashCardController.kt:30-41 | The answer is `Created(id)` with an id that was not in use. The store gains exactly one card: that id, the request's amount, and the caller as owner, and the id counter advances by one. The request's own id and owner are ignored. The caller's lookup of that id then returns the card. Other owners' cards are unchanged. |
| `Controller.CashCardController.FindAll` | src/main/kotlin/name/seguri/springacademy/cashcards/CashCardController.kt:43-55 | The answer is `OkList` of `findByOwner` for the caller, with the request's page, its size, and its sort order or else amount ascending. Each card is a stored card of the caller. There are at most `size` cards, sorted by the requested order, or by amount ascending when none is given. |
| `Controller.CashCardController.PutCashCard` | src/main/kotlin/name/seguri/springacademy/cashcards/CashCardController.kt:57-71 | If the caller owns the card, only its amount is replaced (id and owner stay) and the answer is `NoContent`. Otherwise the answer is `NotFound` and the store is unchanged. Other owners' cards are never touched. |
| `Controller.CashCardController.DeleteCashCard` | src/main/kotlin/name/seguri/springacademy/cashcards/CashCardController.kt:73-81 | If the caller owns the card, exactly that entry is removed and the answer is `NoContent`. Otherwise the answer is `NotFound` and the store is unchanged. Other owners' cards are never touched. |
| `Scenarios.LargestSeedAmount` | src/test/kotlin/name/seguri/springacademy/cashcards/CashCardsApplicationTests.kt:99-112 | In the seeded store, a card of sarah1 that comes first in amount-descending order has amount 150.00. |
| `Scenarios.SeedListedInAmountOrder` | src/test/kotlin/name/seguri/springacademy/cashcards/CashCardsApplicationTests.kt:114-125 | In the seeded store, sarah1's default listing holds three cards with amounts 1.00, 123.45 and 150.00, in that order. |

## Left out

- Authentication and role gating (the `CARD-OWNER` role, Basic authentication, BCrypt, the in-memory user list, CSRF): these are framework configuration. The model takes the caller's name as an already authenticated parameter and does not model the 401 and 403 answers.
- HTTP plumbing: routing, `ResponseEntity` and the Location URI. `Created` carries only the new card's id.
- JSON (de)serialisation of the record: this is done by a library outside this model.
- Application bootstrap.
- Floating point: the amount is a `Double` in the source, which only copies and compares it. Here it is a mathematical `real`, so NaN, infinities and rounding are not modelled.
- Query-string parsing of `page`, `size` and `sort`, with its defaults and limits: `Pageable` arrives already parsed. The page size is at least 1, as the source's page-request factory demands. Sorting is by one property (amount or id) in one direction. Multi-property sorts and other sort fields are not modelled.
- The database: the store is an in-memory map. The seed data comes from the integration tests' expectations, since the SQL scripts are not part of this model: cards 99, 100 and 101 of sarah1 with the amounts the tests read, and card 102 of kumar2. No test reads card 102's amount, so its seeded 200.00 is arbitrary, and no scenario depends on that value beyond reading back what was seeded. A stored card's id is never negative.
- Repository.CashCardRepository.Save: the source's framework treats saving a card whose non-null id is not stored as an update of a missing row, which fails. The model answers `None` and leaves the store unchanged, and never throws. The controller never reaches this case.
- Concurrency: the gap between the ownership check and the write in `putCashCard` and `deleteCashCard` is not modelled, because requests run one at a time here.
- Paging.Sort: the order among cards with equal sort keys is not promised, because the source asks the database for no tie-break.

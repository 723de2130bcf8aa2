/** The integration tests of the cash card API, restated as client methods: each
    one builds the seeded store and drives the handler, and its assertions follow
    from the handler's and the store's contracts alone. */
module Scenarios {

  import opened Wrappers
  import opened CashCards
  import opened Paging
  import opened Repository
  import opened Controller

  /** The seed data: three cards of sarah1 and one of kumar2. */
  function SeedTable(): Table
  {
    map[
      99 := CashCard(Some(99), 123.45, Some("sarah1")),
      100 := CashCard(Some(100), 1.00, Some("sarah1")),
      101 := CashCard(Some(101), 150.00, Some("sarah1")),
      102 := CashCard(Some(102), 200.00, Some("kumar2"))
    ]
  }

  method SeededController() returns (controller: CashCardController)
    ensures fresh(controller) && fresh(controller.repository)
    ensures controller.Valid()
    ensures controller.repository.table == SeedTable() && controller.repository.nextId == 103
  {
    var repository := new CashCardRepository(SeedTable(), 103);
    controller := new CashCardController(repository);
  }

  method ShouldReturnACashCardWhenDataIsSaved() {
    var controller := SeededController();
    var response := controller.FindById(99, "sarah1");
    assert response == Ok(CashCard(Some(99), 123.45, Some("sarah1")));
  }

  method ShouldNotReturnACashCardWithAnUnknownId() {
    var controller := SeededController();
    var response := controller.FindById(1000, "sarah1");
    assert response == NotFound;
  }

  method ShouldCreateANewCashCard() {
    var controller := SeededController();
    var created := controller.CreateCashCard(CashCard(None, 250.00, None), "sarah1");
    assert created.Created?;
    var response := controller.FindById(created.id, "sarah1");
    assert response == Ok(CashCard(Some(created.id), 250.00, Some("sarah1")));
  }

  /** A client-supplied id and owner are both overridden. */
  method ShouldIgnoreSuppliedIdAndOwner() {
    var controller := SeededController();
    var created := controller.CreateCashCard(CashCard(Some(102), 5.00, Some("kumar2")), "sarah1");
    assert created.id != 102;
    var stolen := controller.FindById(102, "kumar2");
    assert stolen == Ok(SeedTable()[102]);
    var mine := controller.FindById(created.id, "sarah1");
    assert mine == Ok(CashCard(Some(created.id), 5.00, Some("sarah1")));
  }

  method ShouldReturnAPageOfCashCards() {
    var controller := SeededController();
    var response := controller.FindAll(Pageable(0, 1, None), "sarah1");
    FirstOfOnePage(controller.repository.table, controller.repository.nextId, "sarah1", DefaultSort, 99);
    assert |response.cards| == 1;
  }

  method ShouldReturnASortedPageOfCashCards() {
    var controller := SeededController();
    var response := controller.FindAll(Pageable(0, 1, Some(Order(Desc, Amount))), "sarah1");
    FirstOfOnePage(controller.repository.table, controller.repository.nextId, "sarah1", Order(Desc, Amount), 99);
    assert |response.cards| == 1;
    LargestSeedAmount(controller.repository.table, response.cards[0]);
    assert response.cards[0].amount == 150.00;
  }

  /** Of sarah1's seeded cards, none has an amount above 150.00. */
  lemma LargestSeedAmount(t: Table, c: CashCard)
    requires t == SeedTable()
    requires Stored(t, c) && c.owner == Some("sarah1")
    requires forall k :: k in t && t[k].owner == Some("sarah1") ==> InOrder(c, t[k], Order(Desc, Amount))
    ensures c.amount == 150.00
  {
    assert InOrder(c, t[101], Order(Desc, Amount));
  }

  method ShouldReturnASortedPageOfCashCardsWithNoParametersAndUseDefaultValues() {
    var controller := SeededController();
    var t := controller.repository.table;
    var response := controller.FindAll(Pageable(0, 20, None), "sarah1");
    SeedListedInAmountOrder(t, controller.repository.nextId, response.cards);
    assert response.cards[0].amount == 1.00 && response.cards[1].amount == 123.45 && response.cards[2].amount == 150.00;
  }

  /** sarah1's default listing of the seeded store. */
  lemma SeedListedInAmountOrder(t: Table, n: nat, r: seq<CashCard>)
    requires t == SeedTable() && WellKeyed(t, n)
    requires r == FindByOwner(t, n, "sarah1", PageRequest(0, 20, DefaultSort))
    ensures |r| == 3
    ensures r[0].amount == 1.00 && r[1].amount == 123.45 && r[2].amount == 150.00
  {
    SeedCardIds(t);
    FirstPageHoldsAll(t, n, "sarah1", PageRequest(0, 20, DefaultSort));
    SeedInAmountOrder(t, r);
  }

  lemma SeedCardIds(t: Table)
    requires t == SeedTable()
    ensures |CardIdsOf(t, "sarah1")| == 3
  {
    assert CardIdsOf(t, "sarah1") == {99, 100, 101};
  }

  /** The only ascending arrangement of sarah1's three seeded cards. */
  lemma SeedInAmountOrder(t: Table, r: seq<CashCard>)
    requires t == SeedTable()
    requires |r| == 3 && t[99] in r && t[100] in r && t[101] in r
    requires SortedBy(r, Order(Asc, Amount))
    ensures r == [t[100], t[99], t[101]]
  {
    assert InOrder(r[0], r[1], Order(Asc, Amount)) && InOrder(r[1], r[2], Order(Asc, Amount));
  }

  method ShouldNotAllowAccessToCashCardsTheyDoNotOwn() {
    var controller := SeededController();
    var response := controller.FindById(102, "sarah1");
    assert response == NotFound;
  }

  method ShouldUpdateAnExistingCashCard() {
    var controller := SeededController();
    var response := controller.PutCashCard(99, CashCard(None, 19.99, None), "sarah1");
    assert response == NoContent;
    var got := controller.FindById(99, "sarah1");
    assert got == Ok(CashCard(Some(99), 19.99, Some("sarah1")));
  }

  method ShouldNotUpdateACashCardThatDoesNotExist() {
    var controller := SeededController();
    var response := controller.PutCashCard(99999, CashCard(None, 19.99, None), "sarah1");
    assert response == NotFound;
    assert controller.repository.table == SeedTable();
  }

  method ShouldNotUpdateACashCardThatIsOwnedBySomeoneElse() {
    var controller := SeededController();
    var response := controller.PutCashCard(102, CashCard(None, 333.33, None), "sarah1");
    assert response == NotFound;
    var got := controller.FindById(102, "kumar2");
    assert got == Ok(SeedTable()[102]);
  }

  method ShouldDeleteAnExistingCashCard() {
    var controller := SeededController();
    var response := controller.DeleteCashCard(99, "sarah1");
    assert response == NoContent;
    var got := controller.FindById(99, "sarah1");
    assert got == NotFound;
    var again := controller.DeleteCashCard(99, "sarah1");
    assert again == NotFound;
  }

  method ShouldNotDeleteACashCardThatDoesNotExist() {
    var controller := SeededController();
    var response := controller.DeleteCashCard(99999, "sarah1");
    assert response == NotFound;
  }

  method ShouldNotAllowDeletionOfCashCardsTheyDoNotOwn() {
    var controller := SeededController();
    var response := controller.DeleteCashCard(102, "sarah1");
    assert response == NotFound;
    var got := controller.FindById(102, "kumar2");
    assert got.Ok?;
  }

}

/** The store of cash cards: a table keyed by card id, the owner-scoped queries the
    handler asks of it, and the two inherited updates, `save` and `deleteById`. */
module Repository {

  import opened Wrappers
  import opened CashCards
  import opened Paging

  /** The stored cards, keyed by id. */
  type Table = map<int, CashCard>

  /** Every stored card carries the id it is stored under. */
  ghost predicate KeyedById(t: Table)
  {
    forall k :: k in t ==> t[k].id == Some(k)
  }

  /** The table's invariant: cards are keyed by their ids, and every id lies in
      [0, nextId), so that `nextId` is unused. */
  ghost predicate WellKeyed(t: Table, nextId: int)
  {
    KeyedById(t) && forall k :: k in t ==> 0 <= k < nextId
  }

  /** `c` is the card stored under its own id. */
  ghost predicate Stored(t: Table, c: CashCard)
  {
    c.id.Some? && c.id.value in t && t[c.id.value] == c
  }

  /** `findByIdAndOwner`: the stored card with this id, provided the caller owns it.
      It finds a card exactly when some entry of the table holds a card with that id
      and that owner; a card of another owner is never returned. */
  function FindByIdAndOwner(t: Table, id: int, owner: string): (r: Option<CashCard>)
    requires KeyedById(t)
    ensures r.Some? <==> exists k :: k in t && t[k].id == Some(id) && t[k].owner == Some(owner)
    ensures r.Some? ==> Stored(t, r.value) && r.value.id == Some(id) && r.value.owner == Some(owner)
  {
    if id in t && t[id].owner == Some(owner) then Some(t[id]) else None
  }

  /** `existsByIdAndOwner`: true exactly when `findByIdAndOwner` would find a card. */
  function ExistsByIdAndOwner(t: Table, id: int, owner: string): (b: bool)
    requires KeyedById(t)
    ensures b <==> FindByIdAndOwner(t, id, owner).Some?
  {
    id in t && t[id].owner == Some(owner)
  }

  /** The cards of `owner` whose ids lie below `n`, in ascending id order (the order
      of a scan over the table's ids). */
  function OwnedCards(t: Table, owner: string, n: nat): (s: seq<CashCard>)
    requires KeyedById(t)
    ensures forall c :: c in s ==> Stored(t, c) && c.owner == Some(owner)
    ensures forall i :: 0 <= i < |s| ==> s[i].id.Some? && 0 <= s[i].id.value < n
    ensures forall i, j :: 0 <= i < j < |s| ==> s[i].id.Some? && s[j].id.Some? && s[i].id.value < s[j].id.value
    ensures forall k :: 0 <= k < n && k in t && t[k].owner == Some(owner) ==> t[k] in s
  {
    if n == 0 then []
    else
      var k := n - 1;
      var found := if k in t && t[k].owner == Some(owner) then [t[k]] else [];
      OwnedCards(t, owner, k) + found
  }

  /** `findByOwner`: one page of the owner's cards in the requested order. `nextId`
      bounds the ids in the table. */
  function FindByOwner(t: Table, nextId: nat, owner: string, req: PageRequest): (r: seq<CashCard>)
    requires WellKeyed(t, nextId)
    ensures |r| <= req.pageSize
    ensures forall c :: c in r ==> Stored(t, c) && c.owner == Some(owner)
    ensures SortedBy(r, req.sort)
    ensures r == Slice(Sort(OwnedCards(t, owner, nextId), req.sort), req.pageNumber, req.pageSize)
  {
    var owned := OwnedCards(t, owner, nextId);
    var sorted := Sort(owned, req.sort);
    SliceSorted(sorted, req.pageNumber, req.pageSize, req.sort);
    PageDrawsFrom(owned, req.pageNumber, req.pageSize, req.sort);
    Slice(sorted, req.pageNumber, req.pageSize)
  }

  /** Every card on a page of the sorted sequence comes from the sequence. */
  lemma PageDrawsFrom(s: seq<CashCard>, pageNumber: nat, pageSize: PageSize, o: Order)
    ensures forall c :: c in Slice(Sort(s, o), pageNumber, pageSize) ==> c in s
  {
    var sorted := Sort(s, o);
    SliceDrawsFrom(sorted, pageNumber, pageSize);
    forall c | c in sorted ensures c in s {
      assert c in multiset(sorted);
    }
  }

  lemma SliceDrawsFrom(s: seq<CashCard>, pageNumber: nat, pageSize: PageSize)
    ensures forall c :: c in Slice(s, pageNumber, pageSize) ==> c in s
  {
    var r := Slice(s, pageNumber, pageSize);
    var start := pageNumber * pageSize;
    forall c | c in r ensures c in s {
      var i :| 0 <= i < |r| && r[i] == c;
      assert r[i] == s[start + i];
    }
  }

  /** `t` and `u` hold the same cards of `owner` under the same ids. */
  ghost predicate SameCardsOf(t: Table, u: Table, owner: string)
  {
    && (forall k :: k in t && t[k].owner == Some(owner) ==> k in u && u[k] == t[k])
    && (forall k :: k in u && u[k].owner == Some(owner) ==> k in t && t[k] == u[k])
  }

  /** Two tables that hold the same cards of `owner` scan to the same owned cards. */
  lemma {:induction false} OwnedCardsAgree(t: Table, u: Table, owner: string, n: nat)
    requires KeyedById(t) && KeyedById(u)
    requires SameCardsOf(t, u, owner)
    ensures OwnedCards(t, owner, n) == OwnedCards(u, owner, n)
  {
    if n > 0 {
      OwnedCardsAgree(t, u, owner, n - 1);
    }
  }

  /** Scanning past the last id of `owner`'s cards finds nothing more. */
  lemma {:induction false} OwnedCardsBeyond(t: Table, owner: string, n: nat, m: nat)
    requires KeyedById(t)
    requires n <= m
    requires forall k :: k in t && t[k].owner == Some(owner) ==> k < n
    ensures OwnedCards(t, owner, m) == OwnedCards(t, owner, n)
    decreases m
  {
    if m > n {
      OwnedCardsBeyond(t, owner, n, m - 1);
      assert !(m - 1 in t && t[m - 1].owner == Some(owner));
    }
  }

  /** Owner isolation of the list query: if two tables hold the same cards of
      `owner`, every page `owner` asks for is the same in both, whatever else they
      hold and whatever their id counters. */
  lemma ListSeesOnlyOwnCards(t: Table, n: nat, u: Table, m: nat, owner: string, req: PageRequest)
    requires WellKeyed(t, n) && WellKeyed(u, m)
    requires SameCardsOf(t, u, owner)
    ensures FindByOwner(t, n, owner, req) == FindByOwner(u, m, owner, req)
  {
    var top := if n <= m then m else n;
    OwnedCardsBeyond(t, owner, n, top);
    OwnedCardsBeyond(u, owner, m, top);
    OwnedCardsAgree(t, u, owner, top);
  }

  /** Owner isolation of the single-card queries. */
  lemma LookupSeesOnlyOwnCards(t: Table, u: Table, owner: string, id: int)
    requires KeyedById(t) && KeyedById(u)
    requires SameCardsOf(t, u, owner)
    ensures FindByIdAndOwner(t, id, owner) == FindByIdAndOwner(u, id, owner)
    ensures ExistsByIdAndOwner(t, id, owner) == ExistsByIdAndOwner(u, id, owner)
  {
  }

  /** An owner who has no stored card lists nothing, whatever page is asked for. */
  lemma ListOfOwnerWithoutCards(t: Table, n: nat, owner: string, req: PageRequest)
    requires WellKeyed(t, n)
    requires forall k :: k in t ==> t[k].owner != Some(owner)
    ensures FindByOwner(t, n, owner, req) == []
  {
    NoOwnedCards(t, owner, n);
    assert Sort(OwnedCards(t, owner, n), req.sort) == [];
  }

  lemma {:induction false} NoOwnedCards(t: Table, owner: string, n: nat)
    requires KeyedById(t)
    requires forall k :: k in t ==> t[k].owner != Some(owner)
    ensures OwnedCards(t, owner, n) == []
  {
    if n > 0 {
      NoOwnedCards(t, owner, n - 1);
    }
  }

  /** The ids of `owner`'s stored cards. */
  ghost function CardIdsOf(t: Table, owner: string): set<int>
  {
    set k | k in t && t[k].owner == Some(owner)
  }

  /** The ids of `owner`'s stored cards below `n`. */
  ghost function CardIdsBelow(t: Table, owner: string, n: nat): set<int>
  {
    set k | k in t && 0 <= k < n && t[k].owner == Some(owner)
  }

  /** The scan finds one card per id of the owner's below `n`. */
  lemma {:induction false} OwnedCardsCountBelow(t: Table, owner: string, n: nat)
    requires KeyedById(t)
    ensures |OwnedCards(t, owner, n)| == |CardIdsBelow(t, owner, n)|
  {
    if n > 0 {
      var k := n - 1;
      OwnedCardsCountBelow(t, owner, k);
      var below, upTo := CardIdsBelow(t, owner, k), CardIdsBelow(t, owner, n);
      if k in t && t[k].owner == Some(owner) {
        assert upTo == below + {k} by {
          forall j | j in upTo ensures j in below + {k} {
            if j != k { assert j in below; }
          }
        }
        assert k !in below;
        assert |OwnedCards(t, owner, n)| == |OwnedCards(t, owner, k)| + 1;
      } else {
        assert upTo == below by {
          forall j | j in upTo ensures j in below {
            assert j != k;
          }
        }
        assert |OwnedCards(t, owner, n)| == |OwnedCards(t, owner, k)|;
      }
    }
  }

  /** Scanning the whole table finds exactly as many cards as the owner has. */
  lemma OwnedCardsCount(t: Table, n: nat, owner: string)
    requires WellKeyed(t, n)
    ensures |OwnedCards(t, owner, n)| == |CardIdsOf(t, owner)|
  {
    OwnedCardsCountBelow(t, owner, n);
    assert CardIdsBelow(t, owner, n) == CardIdsOf(t, owner);
  }

  /** When the owner has no more cards than a page holds, the first page holds
      every stored card of the owner, each exactly once, and nothing else. */
  lemma FirstPageHoldsAll(t: Table, n: nat, owner: string, req: PageRequest)
    requires WellKeyed(t, n)
    requires req.pageNumber == 0 && |CardIdsOf(t, owner)| <= req.pageSize
    ensures multiset(FindByOwner(t, n, owner, req)) == multiset(OwnedCards(t, owner, n))
    ensures |FindByOwner(t, n, owner, req)| == |CardIdsOf(t, owner)|
    ensures forall k :: k in t && t[k].owner == Some(owner) ==> t[k] in FindByOwner(t, n, owner, req)
  {
    var owned := OwnedCards(t, owner, n);
    OwnedCardsCount(t, n, owner);
    var sorted := Sort(owned, req.sort);
    assert |sorted| == |owned| by {
      assert |multiset(sorted)| == |multiset(owned)|;
    }
    assert Slice(sorted, 0, req.pageSize) == sorted;
    forall k | k in t && t[k].owner == Some(owner) ensures t[k] in sorted {
      assert t[k] in multiset(owned);
    }
  }

  /** A page of one card, for an owner who has cards, holds exactly one of them,
      and that card goes before every other card of the owner in the requested
      order: with amount descending, no card of the owner has a larger amount. */
  lemma FirstOfOnePage(t: Table, n: nat, owner: string, o: Order, k0: int)
    requires WellKeyed(t, n)
    requires k0 in t && t[k0].owner == Some(owner)
    ensures var r := FindByOwner(t, n, owner, PageRequest(0, 1, o));
      && |r| == 1
      && Stored(t, r[0]) && r[0].owner == Some(owner)
      && forall k :: k in t && t[k].owner == Some(owner) ==> InOrder(r[0], t[k], o)
  {
    var owned := OwnedCards(t, owner, n);
    var sorted := Sort(owned, o);
    assert t[k0] in owned;
    assert |sorted| == |owned| by {
      assert |multiset(sorted)| == |multiset(owned)|;
    }
    var r := FindByOwner(t, n, owner, PageRequest(0, 1, o));
    assert r[0] == sorted[0];
    forall k | k in t && t[k].owner == Some(owner) ensures InOrder(r[0], t[k], o) {
      assert t[k] in multiset(owned);
      HeadPrecedesAll(sorted, o, t[k]);
    }
  }

  /** The store. Its table changes in place through `Save` and `DeleteById`;
      `nextId` is the id the next new card gets. */
  class CashCardRepository {
    var table: Table
    var nextId: nat

    ghost predicate Valid()
      reads this
    {
      WellKeyed(table, nextId)
    }

    /** A store holding `seed`, whose ids all lie below `nextId`. */
    constructor (seed: Table, nextId: nat)
      requires WellKeyed(seed, nextId)
      ensures Valid()
      ensures table == seed && this.nextId == nextId
    {
      table := seed;
      this.nextId := nextId;
    }

    /** `save`: a card without an id is inserted under a new id, which the returned
        card carries; a card with a stored id replaces the stored one. Saving a card
        whose id is not stored fails and changes nothing. No other entry changes. */
    method Save(card: CashCard) returns (saved: Option<CashCard>)
      requires Valid()
      modifies this
      ensures Valid()
      ensures card.id.None? ==>
        && old(nextId) !in old(table)
        && saved == Some(card.(id := Some(old(nextId))))
        && table == old(table)[old(nextId) := saved.value]
        && nextId == old(nextId) + 1
      ensures card.id.Some? && card.id.value in old(table) ==>
        && saved == Some(card)
        && table == old(table)[card.id.value := card]
        && nextId == old(nextId)
      ensures card.id.Some? && card.id.value !in old(table) ==>
        saved == None && table == old(table) && nextId == old(nextId)
    {
      match card.id
      case None =>
        var stored := card.(id := Some(nextId));
        table := table[nextId := stored];
        nextId := nextId + 1;
        saved := Some(stored);
      case Some(id) =>
        if id in table {
          table := table[id := card];
          saved := Some(card);
        } else {
          saved := None;
        }
    }

    /** `deleteById`: removes the entry for `id`, if any; nothing else changes. */
    method DeleteById(id: int)
      requires Valid()
      modifies this
      ensures Valid()
      ensures table == old(table) - {id}
      ensures nextId == old(nextId)
    {
      table := table - {id};
    }
  }

}

/** Sorting and paging of cash cards, as a page request asks for them: the owner's
    cards are ordered by one property in one direction, then one page is cut out. */
module Paging {

  import opened Wrappers
  import opened CashCards

  /** The card properties a list request may sort on. */
  datatype Property = Amount | Id

  datatype Direction = Asc | Desc

  /** One sort order: a direction and a property. */
  datatype Order = Order(direction: Direction, property: Property)

  /** A page size is at least one: a page request of size zero is refused. */
  type PageSize = n: int | n >= 1 witness 1

  /** The paging parameters of a list request as they reach the handler; `sort` is
      None when the request names no sort order. */
  datatype Pageable = Pageable(pageNumber: nat, pageSize: PageSize, sort: Option<Order>)

  /** The request handed to the store: a page and a definite sort order. */
  datatype PageRequest = PageRequest(pageNumber: nat, pageSize: PageSize, sort: Order)

  /** The order used when a list request names none: amount, ascending. */
  const DefaultSort := Order(Asc, Amount)

  /** The request's sort order, or `default` when it names none. */
  function SortOr(p: Pageable, default: Order): Order
  {
    match p.sort
    case Some(o) => o
    case None => default
  }

  /** The value a card is sorted on. A card without an id is never stored, so the
      value given to it is immaterial. */
  function Key(c: CashCard, p: Property): real
  {
    match p
    case Amount => c.amount
    case Id => if c.id.Some? then c.id.value as real else 0.0
  }

  /** `a` may come before `b` in order `o`. */
  predicate InOrder(a: CashCard, b: CashCard, o: Order)
  {
    match o.direction
    case Asc => Key(a, o.property) <= Key(b, o.property)
    case Desc => Key(a, o.property) >= Key(b, o.property)
  }

  predicate SortedBy(s: seq<CashCard>, o: Order)
  {
    forall i, j :: 0 <= i < j < |s| ==> InOrder(s[i], s[j], o)
  }

  /** Inserts `c` into a sorted sequence, after every card it does not precede. */
  function Insert(c: CashCard, s: seq<CashCard>, o: Order): (r: seq<CashCard>)
    requires SortedBy(s, o)
    ensures SortedBy(r, o)
    ensures multiset(r) == multiset(s) + multiset{c}
  {
    if s == [] then [c]
    else if InOrder(c, s[0], o) then [c] + s
    else
      var rest := Insert(c, s[1..], o);
      assert s == [s[0]] + s[1..];
      InsertKeepsHeadFirst(c, s, rest, o);
      SortedCons(s[0], rest, o);
      [s[0]] + rest
  }

  /** When `c` does not go before the head of `s`, the head still goes before
      everything the rest of `s` becomes once `c` is added to it. */
  lemma InsertKeepsHeadFirst(c: CashCard, s: seq<CashCard>, rest: seq<CashCard>, o: Order)
    requires s != [] && SortedBy(s, o) && !InOrder(c, s[0], o)
    requires multiset(rest) == multiset(s[1..]) + multiset{c}
    ensures forall y :: y in rest ==> InOrder(s[0], y, o)
  {
    forall y | y in rest ensures InOrder(s[0], y, o) {
      assert y in multiset(rest);
      if y != c {
        assert y in multiset(s[1..]);
        var k :| 0 <= k < |s[1..]| && s[1..][k] == y;
        assert s[k + 1] == y;
      }
    }
  }

  /** A card that goes before every card of a sorted sequence can head it. */
  lemma SortedCons(x: CashCard, s: seq<CashCard>, o: Order)
    requires SortedBy(s, o)
    requires forall y :: y in s ==> InOrder(x, y, o)
    ensures SortedBy([x] + s, o)
  {
    var r := [x] + s;
    forall i, j | 0 <= i < j < |r| ensures InOrder(r[i], r[j], o) {
      if i == 0 {
        assert r[j] == s[j - 1];
      } else {
        assert r[i] == s[i - 1] && r[j] == s[j - 1];
      }
    }
  }

  /** The cards of `s` ordered by `o`: sorted, and a permutation of `s`. The order
      among cards with equal keys is not part of the contract. */
  function Sort(s: seq<CashCard>, o: Order): (r: seq<CashCard>)
    ensures SortedBy(r, o)
    ensures multiset(r) == multiset(s)
  {
    if s == [] then []
    else
      assert s == [s[0]] + s[1..];
      Insert(s[0], Sort(s[1..], o), o)
  }

  /** Page `pageNumber` of `s` with `pageSize` elements per page: the elements from
      position pageNumber * pageSize on, pageSize of them when that many remain,
      every remaining one on a short last page, and none when the page starts past
      the end. */
  function Slice(s: seq<CashCard>, pageNumber: nat, pageSize: PageSize): (r: seq<CashCard>)
    ensures |r| <= pageSize
    ensures |r| == if pageNumber * pageSize >= |s| then 0
                   else if |s| - pageNumber * pageSize < pageSize then |s| - pageNumber * pageSize
                   else pageSize
    ensures forall i :: 0 <= i < |r| ==> r[i] == s[pageNumber * pageSize + i]
  {
    var start := pageNumber * pageSize;
    if start >= |s| then []
    else if start + pageSize <= |s| then s[start..start + pageSize]
    else s[start..]
  }

  /** A slice of a sorted sequence is sorted. */
  lemma SliceSorted(s: seq<CashCard>, pageNumber: nat, pageSize: PageSize, o: Order)
    requires SortedBy(s, o)
    ensures SortedBy(Slice(s, pageNumber, pageSize), o)
  {
    var r := Slice(s, pageNumber, pageSize);
    forall i, j | 0 <= i < j < |r| ensures InOrder(r[i], r[j], o) {
      assert r[i] == s[pageNumber * pageSize + i];
      assert r[j] == s[pageNumber * pageSize + j];
    }
  }

  /** The first element of a non-empty sorted sequence precedes every element of it. */
  lemma HeadPrecedesAll(s: seq<CashCard>, o: Order, c: CashCard)
    requires SortedBy(s, o)
    requires c in s
    ensures InOrder(s[0], c, o)
  {
    var k :| 0 <= k < |s| && s[k] == c;
    if k > 0 {
      assert InOrder(s[0], s[k], o);
    }
  }

}

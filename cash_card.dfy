/** The one record of the system: a cash card. */
module CashCards {

  import opened Wrappers

  /** A cash card. The id is assigned by the store when the card is first saved; the
      owner is the name of the authenticated user who created it. The amount is a
      floating-point number in the source, which only copies and compares it, so it
      is a real number here. */
  datatype CashCard = CashCard(id: Option<int>, amount: real, owner: Option<string>)

}

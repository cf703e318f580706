/**
  Order submission (frontend-customer/src/components/Menu.js): an empty cart
  is refused on the spot and nothing is sent; otherwise a request carrying the
  table id and the whole cart goes to the order-intake endpoint. The
  endpoint's answer is an input here: acceptance empties the cart, anything
  else leaves it exactly as it was.
 */
module Order {
  import opened Wrappers
  import opened Cart

  /** The opaque name of the physical table, supplied by the embedding page. */
  type TableId = string

  /** The body posted to the order-intake endpoint. */
  datatype OrderRequest = OrderRequest(tableId: TableId, items: seq<CartLine>)

  /** What the endpoint answered: success, or any error or transport failure. */
  datatype Response = Accepted | Rejected

  /** How a submission ended. */
  datatype Status = Sent | EmptyCart | Failed

  /** The request that was issued (if any), how the submission ended, and the cart afterwards. */
  datatype Submission = Submission(request: Option<OrderRequest>, status: Status, cart: seq<CartLine>)

  /**
    One order submission from `cart` at table `tableId`, where `response` is
    what the endpoint would answer to a request.
   */
  function Submit(tableId: TableId, cart: seq<CartLine>, response: Response): (s: Submission)
    ensures s.request.None? <==> cart == []
    ensures s.request.Some? ==> s.request.value.tableId == tableId && s.request.value.items == cart
    ensures s.status == EmptyCart <==> cart == []
    ensures s.status == Sent <==> cart != [] && response == Accepted
    ensures s.status == Sent ==> s.cart == [] && Total(s.cart) == 0
    ensures s.status != Sent ==> s.cart == cart && Total(s.cart) == Total(cart)
  {
    if cart == [] then Submission(None, EmptyCart, cart)
    else
      var request := OrderRequest(tableId, cart);
      match response
      case Accepted => Submission(Some(request), Sent, [])
      case Rejected => Submission(Some(request), Failed, cart)
  }

  /** Whatever the answer, the cart after a submission still satisfies both cart invariants. */
  lemma SubmitKeepsWellFormed(tableId: TableId, cart: seq<CartLine>, response: Response)
    requires WellFormed(cart)
    ensures WellFormed(Submit(tableId, cart, response).cart)
  {
  }

  /** A failed submission can be retried: the second attempt sends the very same request. */
  lemma RetryAfterFailure(tableId: TableId, cart: seq<CartLine>, response: Response)
    requires Submit(tableId, cart, Rejected).status == Failed
    ensures Submit(tableId, Submit(tableId, cart, Rejected).cart, response).request
         == Submit(tableId, cart, Rejected).request
  {
  }
}

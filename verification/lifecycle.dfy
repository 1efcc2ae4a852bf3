/** How the writing and the reading endpoints fit together over the life of the store. */
module Lifecycle {
  import opened Wrappers
  import opened Schema
  import opened Checkout
  import opened Queries

  /** After a checkout the staff listing shows the new order first, followed by the listing from before. */
  lemma PlacedOrderListedFirst(s: Store, req: Request)
    requires Valid(s) && WellFormed(req)
    ensures var t := PlaceOrder(s, req, false).store;
            Valid(t) &&
            var listing := ListAll(t);
            && |listing| == |s.orders| + 1
            && listing[0] == Summarize(t.orders[|s.orders|], t.contacts[|s.contacts|])
            && listing[1..] == ListAll(s)
  {
    PlaceOrderKeepsValid(s, req, false);
    var t := PlaceOrder(s, req, false).store;
    ListAllAppend(s, t);
  }

  /** A checkout under a three-digit phone is the first row the lookup by that phone returns. */
  lemma PlacedOrderFoundFirst(s: Store, req: Request)
    requires Valid(s) && WellFormed(req)
    requires ValidSuffix(req.payload.contactInfo.value.phone)
    ensures var t := PlaceOrder(s, req, false).store;
            Valid(t) &&
            var r := QueryByPhone(t, req.payload.contactInfo.value.phone);
            && r.Ok? && |r.value| > 0
            && r.value[0] == PhoneRowOf(t.orders[|s.orders|], t.contacts[|s.contacts|])
  {
    PlaceOrderKeepsValid(s, req, false);
    var t := PlaceOrder(s, req, false).store;
    var n := |s.orders|;
    var phone := req.payload.contactInfo.value.phone.value;
    assert t.contacts[n].phone == phone;
    LastOrderFirst(t, phone, QueryByPhone(t, Some(phone)).value);
  }

  /** Clearing a store leaves nothing to list and nothing to find; malformed suffixes are still refused. */
  lemma ClearThenList(s: Store, suffix: Option<string>)
    requires Valid(s)
    ensures ListAll(ClearAll(s, false).store) == []
    ensures !ValidSuffix(suffix) ==> QueryByPhone(ClearAll(s, false).store, suffix) == Err(InvalidRequest)
    ensures ValidSuffix(suffix) ==> QueryByPhone(ClearAll(s, false).store, suffix) == Err(NotFound)
  {
  }
}

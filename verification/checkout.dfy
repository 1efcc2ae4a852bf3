/**
 * The two writing endpoints: placing an order (POST /api/order) and clearing both tables
 * (POST /api/orders/clear). Each is one atomic transition of the store; a storage failure is
 * an input flag, and on failure the store is left exactly as it was.
 */
module Checkout {
  import opened Wrappers
  import opened Text
  import opened Schema

  /** Stored for a missing contact name or phone. */
  const MissingContactField: string := "N/A"

  /** Stored for a missing pickup type. */
  const DefaultPickupType: string := "pickup"

  /** The contactInfo object of the request body; every key may be missing. */
  datatype ContactInput = ContactInput(name: Option<string>, phone: Option<string>, address: Option<string>)

  /** The top-level keys of the request body that the service reads. */
  datatype Payload = Payload(cartItems: Option<seq<CartItem>>, contactInfo: Option<ContactInput>, pickupType: Option<string>)

  /** A request whose body is not JSON, or one carrying a JSON object. */
  datatype Request = NotJson | Json(payload: Payload)

  /** What a successful checkout reports back. */
  datatype Receipt = Receipt(orderNumber: int, amount: int)

  /** A response together with the store after the call. */
  datatype Step<T> = Step(response: Response<T>, store: Store)

  /** The request is JSON and has both a cartItems and a contactInfo key. */
  predicate WellFormed(req: Request) {
    req.Json? && req.payload.cartItems.Some? && req.payload.contactInfo.Some?
  }

  /** The summing loop of the checkout handler, followed by the delivery fee. */
  method ComputeFinalAmount(items: seq<CartItem>, pickupType: Option<string>) returns (amount: int)
    ensures amount == Subtotal(items) + FeeFor(pickupType)
  {
    var total := 0;
    var i := 0;
    while i < |items|
      invariant 0 <= i <= |items|
      invariant total == Subtotal(items[..i])
    {
      SubtotalAppend(items[..i], items[i]);
      assert items[..i + 1] == items[..i] + [items[i]];
      total := total + items[i].price.GetOr(0) * items[i].quantity.GetOr(0);
      i := i + 1;
    }
    assert items[..i] == items;
    amount := total + FeeFor(pickupType);
  }

  /**
   * The address stored for the contact: a missing or blank address becomes absent,
   * any other address is stored with surrounding whitespace removed.
   */
  function NormalizeAddress(address: Option<string>): (r: Option<string>)
    ensures r.None? <==> address.None? || AllSpace(address.value)
    ensures r.Some? ==> IsStripOf(address.value, r.value) && r.value != []
  {
    match address
    case None => None
    case Some(a) =>
      var stripped := if a != "" then Strip(a) else a;
      if stripped == "" then None else Some(stripped)
  }

  /** The contact row written for a checkout, with the defaults for missing keys. */
  function NewContact(id: nat, info: ContactInput, pickupType: Option<string>): Contact {
    Contact(
      id,
      info.name.GetOr(MissingContactField),
      info.phone.GetOr(MissingContactField),
      NormalizeAddress(info.address),
      pickupType.GetOr(DefaultPickupType))
  }

  /**
   * t is s with exactly one contact and one order appended for payload p, as a successful
   * checkout writes them, and rc is what the checkout reports.
   */
  ghost predicate Placed(s: Store, p: Payload, rc: Receipt, t: Store) {
    && p.cartItems.Some? && p.contactInfo.Some?
    // nothing already stored changes
    && |t.contacts| == |s.contacts| + 1 && t.contacts[..|s.contacts|] == s.contacts
    && |t.orders| == |s.orders| + 1 && t.orders[..|s.orders|] == s.orders
    && t.clock == s.clock + 1
    && var c := t.contacts[|s.contacts|];
       var o := t.orders[|s.orders|];
       var info := p.contactInfo.value;
       // the new contact: a fresh key, the defaults, the normalised address
       && (forall i :: 0 <= i < |s.contacts| ==> s.contacts[i].id < c.id)
       && (info.name.None? ==> c.name == MissingContactField)
       && (info.name.Some? ==> c.name == info.name.value)
       && (info.phone.None? ==> c.phone == MissingContactField)
       && (info.phone.Some? ==> c.phone == info.phone.value)
       && (p.pickupType.None? ==> c.pickupType == DefaultPickupType)
       && (p.pickupType.Some? ==> c.pickupType == p.pickupType.value)
       && c.address == NormalizeAddress(info.address)
       // the new order: a fresh key, the next business number, pending, pointing at the new contact
       && (forall i :: 0 <= i < |s.orders| ==> s.orders[i].id < o.id)
       && (forall i :: 0 <= i < |s.orders| ==> s.orders[i].orderNumber < o.orderNumber)
       && (|s.orders| == 0 ==> o.orderNumber == FirstOrderNumber)
       && (|s.orders| > 0 ==> exists i :: 0 <= i < |s.orders| && s.orders[i].orderNumber == o.orderNumber - 1)
       && o.status == PendingStatus
       && o.contactId == c.id
       && o.items == p.cartItems.value
       && o.created == s.clock
       && o.amount == Subtotal(p.cartItems.value) + FeeFor(p.pickupType)
       && rc == Receipt(o.orderNumber, o.amount)
  }

  /** The order row written for a checkout of payload p into s, pointing at the contact with key contactId. */
  function NewOrder(s: Store, p: Payload, contactId: nat): Order
    requires p.cartItems.Some?
  {
    Order(
      NextOrderId(s.orders), NextOrderNumber(s.orders), PendingStatus,
      Subtotal(p.cartItems.value) + FeeFor(p.pickupType), p.cartItems.value, contactId, s.clock)
  }

  /** s with contact c and order o written at the end of their tables and the clock advanced. */
  function Append(s: Store, c: Contact, o: Order): Store {
    Store(s.contacts + [c], s.orders + [o], s.clock + 1)
  }

  /** The store after a checkout of payload p commits: one contact row and one order row appended. */
  function Written(s: Store, p: Payload): Store
    requires p.cartItems.Some? && p.contactInfo.Some?
  {
    var contact := NewContact(NextContactId(s.contacts), p.contactInfo.value, p.pickupType);
    Append(s, contact, NewOrder(s, p, contact.id))
  }

  /** POST /api/order. */
  function PlaceOrder(s: Store, req: Request, storageFails: bool): (out: Step<Receipt>)
    ensures out.response.Ok? <==> WellFormed(req) && !storageFails
    ensures !WellFormed(req) ==> out == Step(Err(InvalidRequest), s)
    ensures WellFormed(req) && storageFails ==> out == Step(Err(StorageError), s)
    ensures out.response.Ok? ==> Placed(s, req.payload, out.response.value, out.store)
  {
    if !req.Json? then Step(Err(InvalidRequest), s)
    else
      var p := req.payload;
      if p.cartItems.None? || p.contactInfo.None? then Step(Err(InvalidRequest), s)
      else if storageFails then Step(Err(StorageError), s)
      else
        var t := Written(s, p);
        var order := t.orders[|s.orders|];
        assert t.contacts[..|s.contacts|] == s.contacts;
        assert t.orders[..|s.orders|] == s.orders;
        Step(Ok(Receipt(order.orderNumber, order.amount)), t)
  }

  /** Appending a contact with a fresh key and an order pointing at it keeps every order linked to its contact. */
  lemma AppendKeepsLinked(s: Store, c: Contact, o: Order)
    requires Linked(s)
    requires forall i :: 0 <= i < |s.contacts| ==> s.contacts[i].id < c.id
    requires o.contactId == c.id
    ensures Linked(Append(s, c, o))
  {
    var t := Append(s, c, o);
    assert forall i :: 0 <= i < |s.orders| ==> t.orders[i] == s.orders[i] && t.contacts[i] == s.contacts[i];
  }

  /** Appending an order with a fresh key, a larger number and the clock's stamp keeps the orders in sequence. */
  lemma AppendKeepsSequence(s: Store, c: Contact, o: Order)
    requires OrderKeysIncrease(s) && NumbersIncrease(s) && CreatedIncrease(s)
    requires forall i :: 0 <= i < |s.orders| ==> s.orders[i].id < o.id
    requires forall i :: 0 <= i < |s.orders| ==> s.orders[i].orderNumber < o.orderNumber
    requires o.created == s.clock
    ensures var t := Append(s, c, o);
            OrderKeysIncrease(t) && NumbersIncrease(t) && CreatedIncrease(t)
  {
    var t := Append(s, c, o);
    assert forall i :: 0 <= i < |s.orders| ==> t.orders[i] == s.orders[i];
  }

  /** Appending a pending order whose amount matches its items and its contact keeps the amounts consistent. */
  lemma AppendKeepsAmounts(s: Store, c: Contact, o: Order)
    requires Paired(s) && AmountsConsistent(s)
    requires o.status == PendingStatus
    requires o.amount == Subtotal(o.items) + FeeFor(Some(c.pickupType))
    ensures AmountsConsistent(Append(s, c, o))
  {
    var t := Append(s, c, o);
    forall i | 0 <= i < |t.orders| && i < |t.contacts|
      ensures t.orders[i].status == PendingStatus
      ensures t.orders[i].amount == Subtotal(t.orders[i].items) + FeeFor(Some(t.contacts[i].pickupType))
    {
      if i < |s.orders| {
        assert t.orders[i] == s.orders[i] && t.contacts[i] == s.contacts[i];
      }
    }
  }

  /** Appending a contact and an order written together, with fresh keys and a larger number, keeps a store valid. */
  lemma AppendKeepsValid(s: Store, c: Contact, o: Order)
    requires Valid(s)
    requires forall i :: 0 <= i < |s.contacts| ==> s.contacts[i].id < c.id
    requires forall i :: 0 <= i < |s.orders| ==> s.orders[i].id < o.id
    requires forall i :: 0 <= i < |s.orders| ==> s.orders[i].orderNumber < o.orderNumber
    requires o.created == s.clock && o.contactId == c.id && o.status == PendingStatus
    requires o.amount == Subtotal(o.items) + FeeFor(Some(c.pickupType))
    ensures Valid(Append(s, c, o))
  {
    AppendKeepsLinked(s, c, o);
    AppendKeepsSequence(s, c, o);
    AppendKeepsAmounts(s, c, o);
  }

  /** The rows a checkout writes keep a valid store valid. */
  lemma WrittenKeepsValid(s: Store, p: Payload)
    requires Valid(s) && p.cartItems.Some? && p.contactInfo.Some?
    ensures Valid(Written(s, p))
  {
    var c := NewContact(NextContactId(s.contacts), p.contactInfo.value, p.pickupType);
    var o := NewOrder(s, p, c.id);
    assert FeeFor(p.pickupType) == FeeFor(Some(c.pickupType));
    AppendKeepsValid(s, c, o);
  }

  /** Placing an order keeps the store valid. */
  lemma PlaceOrderKeepsValid(s: Store, req: Request, storageFails: bool)
    requires Valid(s)
    ensures Valid(PlaceOrder(s, req, storageFails).store)
  {
    if WellFormed(req) && !storageFails {
      WrittenKeepsValid(s, req.payload);
      assert PlaceOrder(s, req, storageFails).store == Written(s, req.payload);
    }
  }

  /** POST /api/orders/clear: every order and every contact is deleted in one transaction. */
  function ClearAll(s: Store, storageFails: bool): (out: Step<()>)
    ensures storageFails ==> out == Step(Err(StorageError), s)
    ensures !storageFails ==> out.response.Ok? && out.store.contacts == [] && out.store.orders == []
    ensures out.store.clock == s.clock
    ensures Valid(s) ==> Valid(out.store)
  {
    if storageFails then Step(Err(StorageError), s)
    else Step(Ok(()), Store([], [], s.clock))
  }

  /** After a successful clear, the next successful checkout gets order number 1001 and keys 1. */
  lemma ClearRestartsNumbering(s: Store, req: Request)
    requires WellFormed(req)
    ensures var cleared := ClearAll(s, false).store;
            var out := PlaceOrder(cleared, req, false);
            && out.response.Ok?
            && out.response.value.orderNumber == FirstOrderNumber
            && out.store.orders[0].id == 1 && out.store.contacts[0].id == 1
  {
  }

  /** Checkouts applied in turn, none failing in storage. */
  function PlaceAll(s: Store, reqs: seq<Request>): Store
    decreases |reqs|
  {
    if |reqs| == 0 then s else PlaceAll(PlaceOrder(s, reqs[0], false).store, reqs[1..])
  }

  /** The order numbers are FirstOrderNumber, FirstOrderNumber + 1, ... in the order the rows were written. */
  ghost predicate NumberedFromFirst(s: Store) {
    forall i :: 0 <= i < |s.orders| ==> s.orders[i].orderNumber == FirstOrderNumber + i
  }

  /** One more checkout continues the run of consecutive numbers. */
  lemma PlaceOrderContinuesNumbering(s: Store, req: Request)
    requires WellFormed(req) && NumberedFromFirst(s)
    ensures var t := PlaceOrder(s, req, false).store;
            |t.orders| == |s.orders| + 1 && NumberedFromFirst(t)
  {
    var t := PlaceOrder(s, req, false).store;
    var n := |s.orders|;
    assert forall i :: 0 <= i < n ==> t.orders[i] == s.orders[i];
    if n > 0 {
      var k :| 0 <= k < n && s.orders[k].orderNumber == t.orders[n].orderNumber - 1;
      assert s.orders[n - 1].orderNumber < t.orders[n].orderNumber;
      assert t.orders[n].orderNumber == FirstOrderNumber + n;
    }
  }

  /** Well-formed checkouts on an empty order table get 1001, 1002, ..., 1000 + N in placement order. */
  lemma {:induction false} SequentialNumbering(s: Store, reqs: seq<Request>)
    requires NumberedFromFirst(s)
    requires forall k :: 0 <= k < |reqs| ==> WellFormed(reqs[k])
    ensures |PlaceAll(s, reqs).orders| == |s.orders| + |reqs|
    ensures NumberedFromFirst(PlaceAll(s, reqs))
    decreases |reqs|
  {
    if |reqs| > 0 {
      PlaceOrderContinuesNumbering(s, reqs[0]);
      SequentialNumbering(PlaceOrder(s, reqs[0], false).store, reqs[1..]);
    }
  }
}

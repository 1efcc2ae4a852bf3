/**
 * The two tables of the shop's database (contact_info and order) as an immutable record,
 * the invariant every reachable state keeps, and the computations both tables share:
 * order amounts, key assignment and the order-to-contact lookup.
 */
module Schema {
  import opened Wrappers

  /** Business number of the first order placed into an empty order table. */
  const FirstOrderNumber: int := 1001

  /** Flat surcharge added when the pickup type is "delivery". */
  const DeliveryFee: int := 50

  const DeliveryPickupType: string := "delivery"

  /** Status every new order is created with; nothing in the service changes it. */
  const PendingStatus: string := "pending"

  /** The "options" key of a cart line: missing, a string, or some other JSON value (null, a number, ...). */
  datatype OptionsField = NoOptions | OptionsText(text: string) | OptionsNotText

  /** One line of the cart as the client sent it; every key may be missing. */
  datatype CartItem = CartItem(name: Option<string>, price: Option<int>, quantity: Option<int>, options: OptionsField)

  /** A row of contact_info: a per-order snapshot of who placed the order. */
  datatype Contact = Contact(id: nat, name: string, phone: string, address: Option<string>, pickupType: string)

  /**
   * A row of order. `id` is the surrogate key, `orderNumber` the business number shown to customers,
   * `items` the cart as stored (the JSON text round-trips to the same structure), and `created`
   * stands for the creation timestamp.
   */
  datatype Order = Order(
    id: nat, orderNumber: int, status: string, amount: int,
    items: seq<CartItem>, contactId: nat, created: nat)

  /** Both tables, plus the clock that stamps new orders. */
  datatype Store = Store(contacts: seq<Contact>, orders: seq<Order>, clock: nat)

  /** The error classes the endpoints report. */
  datatype Failure = InvalidRequest | NotFound | StorageError

  datatype Response<T> = Ok(value: T) | Err(failure: Failure)

  const EmptyStore: Store := Store([], [], 0)

  // ----- amounts -----

  /** price * quantity of one cart line, a missing price or quantity counting as 0. */
  function LineTotal(item: CartItem): int {
    item.price.GetOr(0) * item.quantity.GetOr(0)
  }

  /** Sum of the line totals of a cart: the reference the service's summing loop is checked against. */
  function Subtotal(items: seq<CartItem>): int {
    if |items| == 0 then 0 else LineTotal(items[0]) + Subtotal(items[1..])
  }

  /** Adding a line at the end of a cart adds its line total. */
  lemma {:induction false} SubtotalAppend(items: seq<CartItem>, item: CartItem)
    ensures Subtotal(items + [item]) == Subtotal(items) + LineTotal(item)
  {
    if |items| == 0 {
      assert Subtotal([item]) == LineTotal(item) + Subtotal([]);
    } else {
      assert (items + [item])[1..] == items[1..] + [item];
      SubtotalAppend(items[1..], item);
    }
  }

  /** The delivery fee for the request's pickupType key. */
  function FeeFor(pickupType: Option<string>): (fee: int)
    ensures fee == DeliveryFee <==> pickupType == Some(DeliveryPickupType)
    ensures fee == 0 <==> pickupType != Some(DeliveryPickupType)
  {
    if pickupType == Some(DeliveryPickupType) then DeliveryFee else 0
  }

  // ----- key assignment -----

  /** Largest element of a non-empty sequence. */
  function MaxOf(xs: seq<int>): (m: int)
    requires |xs| > 0
    ensures m in xs
    ensures forall i :: 0 <= i < |xs| ==> xs[i] <= m
  {
    if |xs| == 1 then xs[0]
    else
      var rest := MaxOf(xs[1..]);
      if xs[0] >= rest then xs[0] else rest
  }

  function ContactIds(cs: seq<Contact>): (ids: seq<int>)
    ensures |ids| == |cs| && forall i :: 0 <= i < |cs| ==> ids[i] == cs[i].id
  {
    seq(|cs|, i requires 0 <= i < |cs| => cs[i].id)
  }

  function OrderIds(os: seq<Order>): (ids: seq<int>)
    ensures |ids| == |os| && forall i :: 0 <= i < |os| ==> ids[i] == os[i].id
  {
    seq(|os|, i requires 0 <= i < |os| => os[i].id)
  }

  function OrderNumbers(os: seq<Order>): (ns: seq<int>)
    ensures |ns| == |os| && forall i :: 0 <= i < |os| ==> ns[i] == os[i].orderNumber
  {
    seq(|os|, i requires 0 <= i < |os| => os[i].orderNumber)
  }

  /**
   * The surrogate key the storage engine gives a new row: one past the largest key in the table,
   * or 1 in an empty table.
   */
  function NextRowId(ids: seq<int>): (n: nat)
    requires forall i :: 0 <= i < |ids| ==> ids[i] >= 0
    ensures forall i :: 0 <= i < |ids| ==> ids[i] < n
    ensures |ids| == 0 ==> n == 1
    ensures |ids| > 0 ==> n - 1 in ids
  {
    if |ids| == 0 then 1 else MaxOf(ids) + 1
  }

  /** The surrogate key of the next contact row. */
  function NextContactId(cs: seq<Contact>): (n: nat)
    ensures forall i :: 0 <= i < |cs| ==> cs[i].id < n
    ensures |cs| == 0 ==> n == 1
  {
    NextRowId(ContactIds(cs))
  }

  /** The surrogate key of the next order row. */
  function NextOrderId(os: seq<Order>): (n: nat)
    ensures forall i :: 0 <= i < |os| ==> os[i].id < n
    ensures |os| == 0 ==> n == 1
  {
    NextRowId(OrderIds(os))
  }

  /**
   * The business number of the next order: one past the largest existing number,
   * or FirstOrderNumber when there are no orders.
   */
  function NextOrderNumber(os: seq<Order>): (n: int)
    ensures |os| == 0 ==> n == FirstOrderNumber
    ensures forall i :: 0 <= i < |os| ==> os[i].orderNumber < n
    ensures |os| > 0 ==> exists i :: 0 <= i < |os| && os[i].orderNumber == n - 1
  {
    if |os| == 0 then FirstOrderNumber
    else
      var ns := OrderNumbers(os);
      var m := MaxOf(ns);
      var k :| 0 <= k < |ns| && ns[k] == m;
      assert os[k].orderNumber == m;
      m + 1
  }

  // ----- the invariant -----

  /** contacts[i] is the contact row written together with orders[i]. */
  ghost predicate Paired(s: Store) {
    && |s.contacts| == |s.orders|
    && forall i :: 0 <= i < |s.orders| ==> s.orders[i].contactId == s.contacts[i].id
  }

  /** Contact keys increase in the order the rows were written, so no two contacts share a key. */
  ghost predicate ContactKeysIncrease(s: Store) {
    forall i, j :: 0 <= i < j < |s.contacts| ==> s.contacts[i].id < s.contacts[j].id
  }

  /** Every order's contact key finds exactly the contact written with it. */
  ghost predicate Linked(s: Store) {
    Paired(s) && ContactKeysIncrease(s)
  }

  ghost predicate OrderKeysIncrease(s: Store) {
    forall i, j :: 0 <= i < j < |s.orders| ==> s.orders[i].id < s.orders[j].id
  }

  ghost predicate NumbersIncrease(s: Store) {
    forall i, j :: 0 <= i < j < |s.orders| ==> s.orders[i].orderNumber < s.orders[j].orderNumber
  }

  /** Creation stamps increase in the order the rows were written and are all before the clock. */
  ghost predicate CreatedIncrease(s: Store) {
    && (forall i, j :: 0 <= i < j < |s.orders| ==> s.orders[i].created < s.orders[j].created)
    && (forall i :: 0 <= i < |s.orders| ==> s.orders[i].created < s.clock)
  }

  /** Every order is pending and its amount is the one recomputed from its items and its contact's pickup type. */
  ghost predicate AmountsConsistent(s: Store) {
    forall i :: 0 <= i < |s.orders| && i < |s.contacts| ==>
      && s.orders[i].status == PendingStatus
      && s.orders[i].amount == Subtotal(s.orders[i].items) + FeeFor(Some(s.contacts[i].pickupType))
  }

  /** The invariant every state reachable through the endpoints keeps. */
  ghost predicate Valid(s: Store) {
    && Linked(s)
    && OrderKeysIncrease(s)
    && NumbersIncrease(s)
    && CreatedIncrease(s)
    && AmountsConsistent(s)
  }

  /** The empty database the service starts from is valid. */
  lemma EmptyStoreValid()
    ensures Valid(EmptyStore)
  {
  }

  // ----- order to contact -----

  /** The contact row with the given key, if any. */
  function FindContact(cs: seq<Contact>, id: nat): (r: Option<Contact>)
    ensures r.None? <==> forall i :: 0 <= i < |cs| ==> cs[i].id != id
    ensures r.Some? ==> r.value in cs && r.value.id == id
  {
    if |cs| == 0 then None
    else if cs[0].id == id then Some(cs[0])
    else
      var r := FindContact(cs[1..], id);
      assert forall i :: 1 <= i < |cs| ==> cs[i] == cs[1..][i - 1];
      r
  }

  /** In a linked store the foreign key of orders[i] finds exactly contacts[i]. */
  lemma ContactLookup(s: Store, i: nat)
    requires Linked(s) && i < |s.orders|
    ensures FindContact(s.contacts, s.orders[i].contactId) == Some(s.contacts[i])
  {
    var r := FindContact(s.contacts, s.orders[i].contactId);
    assert s.contacts[i].id == s.orders[i].contactId;
    var k :| 0 <= k < |s.contacts| && s.contacts[k] == r.value;
    assert k == i;
  }

  /** The contact an order refers to (the row the ORM's relationship loads). */
  function ContactOf(s: Store, i: nat): (c: Contact)
    requires Linked(s) && i < |s.orders|
    ensures c == s.contacts[i]
    ensures c.id == s.orders[i].contactId
  {
    ContactLookup(s, i);
    FindContact(s.contacts, s.orders[i].contactId).value
  }
}

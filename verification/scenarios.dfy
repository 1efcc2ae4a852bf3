/** Concrete walks through the service. */
module Scenarios {
  import opened Wrappers
  import opened Text
  import opened Schema
  import opened Checkout
  import opened Queries

  function Cart(name: string, price: int, quantity: int): seq<CartItem> {
    [CartItem(Some(name), Some(price), Some(quantity), NoOptions)]
  }

  function CheckoutRequest(items: seq<CartItem>, name: string, phone: string, address: string, pickupType: string): Request {
    Json(Payload(Some(items), Some(ContactInput(Some(name), Some(phone), Some(address))), Some(pickupType)))
  }

  /** Two cups at 60 cost 120 for pickup and 170 for delivery. */
  lemma DeliveryAddsFee()
    ensures PlaceOrder(EmptyStore, CheckoutRequest(Cart("A", 60, 2), "Amy", "123", "", "pickup"), false).response
            == Ok(Receipt(1001, 120))
    ensures PlaceOrder(EmptyStore, CheckoutRequest(Cart("A", 60, 2), "Amy", "123", "", "delivery"), false).response
            == Ok(Receipt(1001, 170))
  {
  }

  /** A checkout for phone "123" is found again by the suffix "123", shown as "Milk Tea x 1". */
  lemma PlaceThenQuery()
    ensures var out := PlaceOrder(EmptyStore, CheckoutRequest(Cart("Milk Tea", 60, 1), "Amy", "123", "", "pickup"), false);
            && out.response == Ok(Receipt(1001, 60))
            && Valid(out.store)
            && QueryByPhone(out.store, Some("123")) == Ok([PhoneRow(1001, "Milk Tea x 1", 60, 0, "pickup", None)])
  {
    var req := CheckoutRequest(Cart("Milk Tea", 60, 1), "Amy", "123", "", "pickup");
    var out := PlaceOrder(EmptyStore, req, false);
    PlaceOrderKeepsValid(EmptyStore, req, false);
    var t := out.store;
    assert |t.orders| == 1 && t.contacts[0].phone == "123";
    assert QueryContent(Cart("Milk Tea", 60, 1)) == "Milk Tea x 1";
    assert PhoneRowOf(t.orders[0], t.contacts[0]) == PhoneRow(1001, "Milk Tea x 1", 60, 0, "pickup", None);
    SingleOrderRows(t, "123", QueryByPhone(t, Some("123")).value);
  }

  /** The suffixes "12", "12a", "1234" and a missing suffix are refused; "123" is accepted. */
  lemma SuffixExamples()
    ensures !ValidSuffix(Some("12")) && !ValidSuffix(Some("12a")) && !ValidSuffix(Some("1234")) && !ValidSuffix(None)
    ensures ValidSuffix(Some("123"))
  {
    assert !IsDigit("12a"[2]);
  }

  /** A cart line with options "L / less ice" and quantity 2 is listed with the option "L". */
  lemma OptionLineExample()
    ensures ListLine(CartItem(Some("Milk Tea"), Some(60), Some(2), OptionsText("L / less ice"))) == Some("Milk Tea (L) x 2")
  {
    var a := CartItem(Some("Milk Tea"), Some(60), Some(2), OptionsText("L / less ice"));
    var t := "L / less ice";
    assert OccursAt(t, OptionsSeparator, 1) by { assert t[1..4] == " / "; }
    assert !OccursAt(t, OptionsSeparator, 0) by { assert t[0..3][0] == 'L'; }
    assert FirstPiece(t, OptionsSeparator) == t[..1] == "L";
    assert IntToString(2) == "2";
    assert ListLineWith(a, "L") == "Milk Tea" + " (" + "L" + ") x " + "2";
    assert "Milk Tea" + " (" + "L" + ") x " + "2" == "Milk Tea (L) x 2";
  }

  /** A cart line without options or quantity is listed with empty parentheses and quantity 1. */
  lemma PlainLineExample()
    ensures ListLine(CartItem(Some("Green Tea"), Some(40), None, NoOptions)) == Some("Green Tea () x 1")
  {
    var b := CartItem(Some("Green Tea"), Some(40), None, NoOptions);
    assert IntToString(1) == "1";
    assert ListLineWith(b, "") == "Green Tea" + " (" + "" + ") x " + "1";
    assert "Green Tea" + " (" + "" + ") x " + "1" == "Green Tea () x 1";
  }

  /** A two-line cart is listed as its two lines joined by ", ". */
  lemma TwoLineContent(a: CartItem, b: CartItem, la: string, lb: string)
    requires ListLine(a) == Some(la) && ListLine(b) == Some(lb)
    ensures ListContent([a, b]) == la + LineSeparator + lb
  {
    assert [a][0] == a && [b][0] == b;
    ListContentConcat([a], [b]);
    assert [a] + [b] == [a, b];
  }

  /** The staff listing joins the two lines above with ", ". */
  lemma ListingContentExample()
    ensures ListContent([CartItem(Some("Milk Tea"), Some(60), Some(2), OptionsText("L / less ice")),
                         CartItem(Some("Green Tea"), Some(40), None, NoOptions)])
            == "Milk Tea (L) x 2, Green Tea () x 1"
  {
    OptionLineExample();
    PlainLineExample();
    TwoLineContent(CartItem(Some("Milk Tea"), Some(60), Some(2), OptionsText("L / less ice")),
                   CartItem(Some("Green Tea"), Some(40), None, NoOptions),
                   "Milk Tea (L) x 2", "Green Tea () x 1");
    JoinedListingText();
  }

  /** The two lines and the separator spell the expected listing text. */
  lemma JoinedListingText()
    ensures "Milk Tea (L) x 2" + LineSeparator + "Green Tea () x 1" == "Milk Tea (L) x 2, Green Tea () x 1"
  {
  }

  /** A missing address and a blank one are both stored as absent. */
  lemma MissingOrBlankAddress()
    ensures NormalizeAddress(None) == None
    ensures NormalizeAddress(Some("")) == None
    ensures NormalizeAddress(Some("   ")) == None
  {
    assert AllSpace("   ");
  }

  /** Any other address is stored without its surrounding whitespace. */
  lemma TrimmedAddress()
    ensures NormalizeAddress(Some(" 12 Main St ")) == Some("12 Main St")
  {
    var a := " 12 Main St ";
    assert StripsAt(a, 1, 11);
    assert a[1..11] == "12 Main St";
    StripUnique(a, Strip(a), a[1..11]);
  }
}

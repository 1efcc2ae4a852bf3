/**
 * The two reading endpoints: the staff listing of every order (GET /api/orders/all) and the
 * customer lookup by phone suffix (GET /api/order/query). Both run over a valid store, in which
 * every order's contact key finds its contact row.
 */
module Queries {
  import opened Wrappers
  import opened Text
  import opened Schema

  /** The content shown for an order whose stored items cannot be rendered. */
  const UnparseableContent: string := "無法解析訂單內容"

  /** Name shown in the staff listing for a line without a name. */
  const ListDefaultName: string := "未知飲品"

  /** Name shown in the phone lookup for a line without a name. */
  const QueryDefaultName: string := "飲品"

  /** Quantity shown for a line without a quantity (the amount counted it as 0). */
  const DisplayDefaultQuantity: int := 1

  const OptionsSeparator: string := " / "
  const LineSeparator: string := ", "

  /** Phone shown in the staff listing when the stored phone is empty. */
  const MissingPhone: string := "N/A"

  /** One entry of the staff listing; `id` is the order's surrogate key. */
  datatype OrderSummary = OrderSummary(
    id: nat, content: string, amount: int, customerName: string, phone: string,
    status: string, pickupType: string, address: Option<string>, created: nat)

  /** One entry of the phone lookup; `orderNumber` is the business number. */
  datatype PhoneRow = PhoneRow(
    orderNumber: int, content: string, amount: int, created: nat,
    pickupType: string, address: Option<string>)

  predicate NotTextOptions(item: CartItem) {
    item.options.OptionsNotText?
  }

  // ----- content of the staff listing -----

  /** "<name> (<options up to the first ' / '>) x <quantity>", or None when the options key is not a string. */
  function ListLine(item: CartItem): (r: Option<string>)
    ensures r.None? <==> NotTextOptions(item)
  {
    match item.options
    case OptionsNotText => None
    case NoOptions => Some(ListLineWith(item, ""))
    case OptionsText(t) => Some(ListLineWith(item, FirstPiece(t, OptionsSeparator)))
  }

  function ListLineWith(item: CartItem, option: string): string {
    item.name.GetOr(ListDefaultName) + " (" + option + ") x " + IntToString(item.quantity.GetOr(DisplayDefaultQuantity))
  }

  /** The lines of a cart, or None as soon as one line cannot be rendered. */
  function ListLines(items: seq<CartItem>): (r: Option<seq<string>>)
    ensures r.None? <==> exists i :: 0 <= i < |items| && NotTextOptions(items[i])
    ensures r.Some? ==> |r.value| == |items| && forall i :: 0 <= i < |items| ==> ListLine(items[i]) == Some(r.value[i])
  {
    if |items| == 0 then Some([])
    else
      match ListLine(items[0])
      case None => None
      case Some(line) =>
        var rest := ListLines(items[1..]);
        assert forall i :: 1 <= i < |items| ==> items[i] == items[1..][i - 1];
        if rest.None? then None else Some([line] + rest.value)
  }

  /** The content column of the staff listing: the lines joined, or the fixed marker when rendering fails. */
  function ListContent(items: seq<CartItem>): (r: string)
    ensures (exists i :: 0 <= i < |items| && NotTextOptions(items[i])) ==> r == UnparseableContent
    ensures items == [] ==> r == ""
    ensures |items| == 1 && !NotTextOptions(items[0]) ==> Some(r) == ListLine(items[0])
  {
    match ListLines(items)
    case None => UnparseableContent
    case Some(lines) => Join(LineSeparator, lines)
  }

  /** The listing content of two renderable carts put together is the two contents joined by ", ". */
  lemma ListContentConcat(a: seq<CartItem>, b: seq<CartItem>)
    requires |a| > 0 && |b| > 0
    requires forall i :: 0 <= i < |a| ==> !NotTextOptions(a[i])
    requires forall i :: 0 <= i < |b| ==> !NotTextOptions(b[i])
    ensures ListContent(a + b) == ListContent(a) + LineSeparator + ListContent(b)
  {
    var ab := a + b;
    assert forall i :: 0 <= i < |ab| ==> !NotTextOptions(ab[i]) by {
      forall i | 0 <= i < |ab| ensures !NotTextOptions(ab[i]) {
        if i < |a| { assert ab[i] == a[i]; } else { assert ab[i] == b[i - |a|]; }
      }
    }
    var la := ListLines(a).value;
    var lb := ListLines(b).value;
    var lab := ListLines(ab).value;
    forall i | 0 <= i < |lab| ensures lab[i] == (la + lb)[i] {
      if i < |a| {
        assert ab[i] == a[i];
        assert Some(lab[i]) == ListLine(a[i]) == Some(la[i]);
      } else {
        assert ab[i] == b[i - |a|];
        assert Some(lab[i]) == ListLine(b[i - |a|]) == Some(lb[i - |a|]);
      }
    }
    assert lab == la + lb;
    JoinConcat(LineSeparator, la, lb);
  }

  // ----- content of the phone lookup -----

  /** "<name> x <quantity>"; the options are not shown. */
  function QueryLine(item: CartItem): string {
    item.name.GetOr(QueryDefaultName) + " x " + IntToString(item.quantity.GetOr(DisplayDefaultQuantity))
  }

  function QueryLines(items: seq<CartItem>): (lines: seq<string>)
    ensures |lines| == |items| && forall i :: 0 <= i < |items| ==> lines[i] == QueryLine(items[i])
  {
    if |items| == 0 then []
    else
      var rest := QueryLines(items[1..]);
      assert forall i :: 1 <= i < |items| ==> items[i] == items[1..][i - 1];
      [QueryLine(items[0])] + rest
  }

  function QueryContent(items: seq<CartItem>): (r: string)
    ensures items == [] ==> r == ""
    ensures |items| == 1 ==> r == QueryLine(items[0])
  {
    Join(LineSeparator, QueryLines(items))
  }

  /** The lookup content of two carts put together is the two contents joined by ", ". */
  lemma QueryContentConcat(a: seq<CartItem>, b: seq<CartItem>)
    requires |a| > 0 && |b| > 0
    ensures QueryContent(a + b) == QueryContent(a) + LineSeparator + QueryContent(b)
  {
    var la := QueryLines(a);
    var lb := QueryLines(b);
    var lab := QueryLines(a + b);
    forall i | 0 <= i < |lab| ensures lab[i] == (la + lb)[i] {
      if i < |a| { assert (a + b)[i] == a[i]; } else { assert (a + b)[i] == b[i - |a|]; }
    }
    assert lab == la + lb;
    JoinConcat(LineSeparator, la, lb);
  }

  // ----- GET /api/orders/all -----

  function Summarize(o: Order, c: Contact): OrderSummary {
    OrderSummary(
      o.id, ListContent(o.items), o.amount, c.name,
      if c.phone != "" then c.phone else MissingPhone,
      o.status, c.pickupType, c.address, o.created)
  }

  /** Summaries of the first n orders, the most recently written first. */
  function NewestFirst(s: Store, n: nat): (r: seq<OrderSummary>)
    requires Linked(s) && n <= |s.orders|
    ensures |r| == n
    ensures forall k :: 0 <= k < n ==> r[k] == Summarize(s.orders[n - 1 - k], s.contacts[n - 1 - k])
  {
    if n == 0 then []
    else [Summarize(s.orders[n - 1], ContactOf(s, n - 1))] + NewestFirst(s, n - 1)
  }

  /** Every order with its contact, ordered by surrogate key, largest first. */
  function ListAll(s: Store): (r: seq<OrderSummary>)
    requires Valid(s)
    ensures |r| == |s.orders|
    ensures forall i :: 0 <= i < |s.orders| ==> Summarize(s.orders[i], s.contacts[i]) == r[|s.orders| - 1 - i]
    ensures forall i, j :: 0 <= i < j < |r| ==> r[i].id > r[j].id
  {
    var r := NewestFirst(s, |s.orders|);
    assert forall i :: 0 <= i < |s.orders| ==> r[|s.orders| - 1 - i] == Summarize(s.orders[i], s.contacts[i]);
    r
  }

  /** Two valid stores that agree on their first n rows summarise them alike. */
  lemma {:induction false} NewestFirstPrefix(s: Store, t: Store, n: nat)
    requires Linked(s) && Linked(t) && n <= |s.orders| && n <= |t.orders|
    requires forall i :: 0 <= i < n ==> s.orders[i] == t.orders[i] && s.contacts[i] == t.contacts[i]
    ensures NewestFirst(s, n) == NewestFirst(t, n)
    decreases n
  {
    if n > 0 {
      NewestFirstPrefix(s, t, n - 1);
    }
  }

  /** Summaries of a store with one more row pair written at the end: the new pair first, then the old ones. */
  lemma NewestFirstAppend(s: Store, t: Store)
    requires Linked(s) && Linked(t)
    requires |t.orders| == |s.orders| + 1 && t.orders[..|s.orders|] == s.orders && t.contacts[..|s.contacts|] == s.contacts
    ensures NewestFirst(t, |t.orders|) == [Summarize(t.orders[|s.orders|], t.contacts[|s.orders|])] + NewestFirst(s, |s.orders|)
  {
    var n := |s.orders|;
    assert forall i :: 0 <= i < n ==> s.orders[i] == t.orders[..n][i] && s.contacts[i] == t.contacts[..n][i];
    NewestFirstPrefix(s, t, n);
  }

  /** Listing a store with one more order written at the end lists that order first and then the old listing. */
  lemma ListAllAppend(s: Store, t: Store)
    requires Valid(s) && Valid(t)
    requires |t.orders| == |s.orders| + 1 && t.orders[..|s.orders|] == s.orders && t.contacts[..|s.contacts|] == s.contacts
    ensures ListAll(t)[0] == Summarize(t.orders[|s.orders|], t.contacts[|s.contacts|])
    ensures ListAll(t)[1..] == ListAll(s)
  {
    NewestFirstAppend(s, t);
  }

  // ----- GET /api/order/query -----

  /** A phone suffix is accepted only when present, non-empty, three characters long and all digits. */
  predicate ValidSuffix(q: Option<string>) {
    q.Some? && q.value != "" && |q.value| == 3 && AllDigits(q.value)
  }

  /** Keys of the contacts whose phone equals the given text. */
  function ContactIdsWithPhone(cs: seq<Contact>, phone: string): set<nat> {
    set i | 0 <= i < |cs| && cs[i].phone == phone :: cs[i].id
  }

  /** In a linked store an order's contact key is among those of contacts with a phone exactly when its own contact has it. */
  lemma ContactIdsWithPhoneMatch(s: Store, phone: string, i: nat)
    requires Linked(s) && i < |s.orders|
    ensures s.orders[i].contactId in ContactIdsWithPhone(s.contacts, phone) <==> s.contacts[i].phone == phone
  {
    if s.orders[i].contactId in ContactIdsWithPhone(s.contacts, phone) {
      var j :| 0 <= j < |s.contacts| && s.contacts[j].phone == phone && s.contacts[j].id == s.orders[i].contactId;
      assert j == i;
    }
  }

  /** Positions below n of the orders whose contact key is in ids, largest position first. */
  function PositionsWithContact(os: seq<Order>, ids: set<nat>, n: nat): (r: seq<nat>)
    requires n <= |os|
    ensures forall k :: 0 <= k < |r| ==> r[k] < n && os[r[k]].contactId in ids
    ensures forall i :: 0 <= i < n && os[i].contactId in ids ==> i in r
    ensures forall a, b :: 0 <= a < b < |r| ==> r[a] > r[b]
  {
    if n == 0 then []
    else if os[n - 1].contactId in ids then [n - 1] + PositionsWithContact(os, ids, n - 1)
    else PositionsWithContact(os, ids, n - 1)
  }

  function PhoneRowOf(o: Order, c: Contact): PhoneRow {
    PhoneRow(o.orderNumber, QueryContent(o.items), o.amount, o.created, c.pickupType, c.address)
  }

  /** The positions of the orders whose contact has the phone, newest first. */
  function PositionsWithPhone(s: Store, phone: string): (pos: seq<nat>)
    requires Linked(s)
    ensures forall k :: 0 <= k < |pos| ==> pos[k] < |s.orders| && s.contacts[pos[k]].phone == phone
    ensures forall i :: 0 <= i < |s.orders| && s.contacts[i].phone == phone ==> i in pos
    ensures forall a, b :: 0 <= a < b < |pos| ==> pos[a] > pos[b]
  {
    var ids := ContactIdsWithPhone(s.contacts, phone);
    var pos := PositionsWithContact(s.orders, ids, |s.orders|);
    assert forall k :: 0 <= k < |pos| ==> s.contacts[pos[k]].phone == phone by {
      forall k | 0 <= k < |pos| ensures s.contacts[pos[k]].phone == phone {
        ContactIdsWithPhoneMatch(s, phone, pos[k]);
      }
    }
    assert forall i :: 0 <= i < |s.orders| && s.contacts[i].phone == phone ==> i in pos by {
      forall i | 0 <= i < |s.orders| && s.contacts[i].phone == phone ensures i in pos {
        ContactIdsWithPhoneMatch(s, phone, i);
      }
    }
    pos
  }

  /** Every row is the lookup row of some order whose contact has the phone. */
  ghost predicate OnlyWithPhone(s: Store, phone: string, rows: seq<PhoneRow>)
    requires Paired(s)
  {
    forall k :: 0 <= k < |rows| ==>
      exists i :: 0 <= i < |s.orders| && s.contacts[i].phone == phone && rows[k] == PhoneRowOf(s.orders[i], s.contacts[i])
  }

  /** The lookup row of every order whose contact has the phone is among the rows. */
  ghost predicate AllWithPhone(s: Store, phone: string, rows: seq<PhoneRow>)
    requires Paired(s)
  {
    forall i :: 0 <= i < |s.orders| && s.contacts[i].phone == phone ==> PhoneRowOf(s.orders[i], s.contacts[i]) in rows
  }

  /** Creation stamps strictly decrease along the rows. */
  predicate NewestRowsFirst(rows: seq<PhoneRow>) {
    forall a, b :: 0 <= a < b < |rows| ==> rows[a].created > rows[b].created
  }

  /**
   * rows holds a lookup row for every order whose contact has the phone, only those,
   * each once, newest first.
   */
  ghost predicate ExactlyWithPhone(s: Store, phone: string, rows: seq<PhoneRow>)
    requires Paired(s)
  {
    OnlyWithPhone(s, phone, rows) && AllWithPhone(s, phone, rows) && NewestRowsFirst(rows)
  }

  /** The lookup rows of the orders at the given positions, in that order. */
  function RowsAt(s: Store, pos: seq<nat>): (rows: seq<PhoneRow>)
    requires Linked(s)
    requires forall k :: 0 <= k < |pos| ==> pos[k] < |s.orders|
    ensures |rows| == |pos|
    ensures forall k :: 0 <= k < |pos| ==> rows[k] == PhoneRowOf(s.orders[pos[k]], s.contacts[pos[k]])
  {
    if |pos| == 0 then []
    else
      var rest := RowsAt(s, pos[1..]);
      assert forall k :: 1 <= k < |pos| ==> pos[1..][k - 1] == pos[k];
      [PhoneRowOf(s.orders[pos[0]], ContactOf(s, pos[0]))] + rest
  }

  /** Every row taken at a position with the phone is the row of an order with the phone. */
  lemma RowsAtSound(s: Store, phone: string, pos: seq<nat>)
    requires Linked(s)
    requires forall k :: 0 <= k < |pos| ==> pos[k] < |s.orders| && s.contacts[pos[k]].phone == phone
    ensures OnlyWithPhone(s, phone, RowsAt(s, pos))
  {
    var rows := RowsAt(s, pos);
    forall k | 0 <= k < |rows|
      ensures exists i :: 0 <= i < |s.orders| && s.contacts[i].phone == phone && rows[k] == PhoneRowOf(s.orders[i], s.contacts[i])
    {
      var i := pos[k];
      assert 0 <= i < |s.orders| && s.contacts[i].phone == phone && rows[k] == PhoneRowOf(s.orders[i], s.contacts[i]);
    }
  }

  /** Rows taken at every position with the phone include the row of every order with the phone. */
  lemma RowsAtComplete(s: Store, phone: string, pos: seq<nat>)
    requires Linked(s)
    requires forall k :: 0 <= k < |pos| ==> pos[k] < |s.orders|
    requires forall i :: 0 <= i < |s.orders| && s.contacts[i].phone == phone ==> i in pos
    ensures AllWithPhone(s, phone, RowsAt(s, pos))
  {
    var rows := RowsAt(s, pos);
    forall i | 0 <= i < |s.orders| && s.contacts[i].phone == phone
      ensures PhoneRowOf(s.orders[i], s.contacts[i]) in rows
    {
      var k :| 0 <= k < |pos| && pos[k] == i;
      assert rows[k] == PhoneRowOf(s.orders[i], s.contacts[i]);
    }
  }

  /** Rows taken at decreasing positions are newest first. */
  lemma RowsAtNewestFirst(s: Store, pos: seq<nat>)
    requires Linked(s) && CreatedIncrease(s)
    requires forall k :: 0 <= k < |pos| ==> pos[k] < |s.orders|
    requires forall a, b :: 0 <= a < b < |pos| ==> pos[a] > pos[b]
    ensures NewestRowsFirst(RowsAt(s, pos))
  {
    var rows := RowsAt(s, pos);
    forall a, b | 0 <= a < b < |rows|
      ensures rows[a].created > rows[b].created
    {
      assert pos[a] > pos[b];
      assert rows[a].created == s.orders[pos[a]].created && rows[b].created == s.orders[pos[b]].created;
    }
  }

  /** Lookup rows for exactly the orders whose contact has the phone, newest first. */
  function RowsWithPhone(s: Store, phone: string): (rows: seq<PhoneRow>)
    requires Linked(s) && CreatedIncrease(s)
    ensures ExactlyWithPhone(s, phone, rows)
  {
    var pos := PositionsWithPhone(s, phone);
    RowsAtSound(s, phone, pos);
    RowsAtComplete(s, phone, pos);
    RowsAtNewestFirst(s, pos);
    RowsAt(s, pos)
  }

  /** Rows newest first never repeat the first row as the second. */
  lemma FirstRowsDiffer(rows: seq<PhoneRow>)
    requires NewestRowsFirst(rows)
    ensures 2 <= |rows| ==> rows[0] != rows[1]
  {
  }

  /** Rows newest first that all equal one row hold it exactly once. */
  lemma OnlyRow(rows: seq<PhoneRow>, row: PhoneRow)
    requires NewestRowsFirst(rows) && row in rows
    requires forall k :: 0 <= k < |rows| ==> rows[k] == row
    ensures rows == [row]
  {
    FirstRowsDiffer(rows);
  }

  /** No row for a phone is stamped later than the last order written. */
  lemma RowsNotAfterLast(s: Store, phone: string, rows: seq<PhoneRow>)
    requires Paired(s) && CreatedIncrease(s) && 0 < |s.orders|
    requires OnlyWithPhone(s, phone, rows)
    ensures forall k :: 0 <= k < |rows| ==> rows[k].created <= s.orders[|s.orders| - 1].created
  {
    forall k | 0 <= k < |rows| ensures rows[k].created <= s.orders[|s.orders| - 1].created {
      var i :| 0 <= i < |s.orders| && s.contacts[i].phone == phone && rows[k] == PhoneRowOf(s.orders[i], s.contacts[i]);
      assert rows[k].created == s.orders[i].created;
    }
  }

  /** In rows newest first, a row stamped no earlier than any other is the first one. */
  lemma LatestRowFirst(rows: seq<PhoneRow>, row: PhoneRow)
    requires NewestRowsFirst(rows) && row in rows
    requires forall k :: 0 <= k < |rows| ==> rows[k].created <= row.created
    ensures rows[0] == row
  {
    var k :| 0 <= k < |rows| && rows[k] == row;
    assert rows[0].created <= rows[k].created;
    assert k == 0;
  }

  /** When the last order written has the phone, its row comes first among the rows for that phone. */
  lemma LastOrderFirst(s: Store, phone: string, rows: seq<PhoneRow>)
    requires Paired(s) && CreatedIncrease(s) && 0 < |s.orders|
    requires s.contacts[|s.orders| - 1].phone == phone
    requires ExactlyWithPhone(s, phone, rows)
    ensures 0 < |rows| && rows[0] == PhoneRowOf(s.orders[|s.orders| - 1], s.contacts[|s.orders| - 1])
  {
    var n := |s.orders| - 1;
    var row := PhoneRowOf(s.orders[n], s.contacts[n]);
    assert row in rows;
    RowsNotAfterLast(s, phone, rows);
    assert row.created == s.orders[n].created;
    LatestRowFirst(rows, row);
  }

  /** In a store of one order whose contact has the phone, the rows for the phone are that order's row alone. */
  lemma SingleOrderRows(s: Store, phone: string, rows: seq<PhoneRow>)
    requires Paired(s) && |s.orders| == 1 && s.contacts[0].phone == phone
    requires ExactlyWithPhone(s, phone, rows)
    ensures rows == [PhoneRowOf(s.orders[0], s.contacts[0])]
  {
    var row := PhoneRowOf(s.orders[0], s.contacts[0]);
    assert row in rows;
    forall k | 0 <= k < |rows| ensures rows[k] == row {
      var i :| 0 <= i < |s.orders| && s.contacts[i].phone == phone && rows[k] == PhoneRowOf(s.orders[i], s.contacts[i]);
      assert i == 0;
    }
    OnlyRow(rows, row);
  }

  /** No contact key has the phone exactly when no contact does. */
  lemma NoContactIdsWithPhone(cs: seq<Contact>, phone: string)
    ensures ContactIdsWithPhone(cs, phone) == {} <==> forall i :: 0 <= i < |cs| ==> cs[i].phone != phone
  {
    if exists i :: 0 <= i < |cs| && cs[i].phone == phone {
      var i :| 0 <= i < |cs| && cs[i].phone == phone;
      assert cs[i].id in ContactIdsWithPhone(cs, phone);
    }
  }

  /**
   * The orders whose contact's phone equals the suffix exactly, newest first; InvalidRequest for a
   * malformed suffix and NotFound when no contact has that phone.
   */
  function QueryByPhone(s: Store, suffix: Option<string>): (r: Response<seq<PhoneRow>>)
    requires Valid(s)
    ensures r == Err(InvalidRequest) <==> !ValidSuffix(suffix)
    ensures r == Err(NotFound) <==> ValidSuffix(suffix) && forall i :: 0 <= i < |s.contacts| ==> s.contacts[i].phone != suffix.value
    ensures r.Err? ==> r.failure != StorageError
    ensures r.Ok? ==> ValidSuffix(suffix) && ExactlyWithPhone(s, suffix.value, r.value)
  {
    if !ValidSuffix(suffix) then Err(InvalidRequest)
    else
      NoContactIdsWithPhone(s.contacts, suffix.value);
      if ContactIdsWithPhone(s.contacts, suffix.value) == {} then Err(NotFound)
      else Ok(RowsWithPhone(s, suffix.value))
  }
}

# Order-taking core of the beverage-shop backend, in Dafny

This project models the order-taking part of `app.py`, a small Flask/SQLAlchemy backend. The shop
takes cart checkouts, stores each order together with a snapshot of the customer's contact
details, lists all orders for the staff, and lets customers find their orders by a three-digit
phone suffix. The model covers four endpoints:

- `place_order` (POST /api/order)
- `get_all_orders` (GET /api/orders/all)
- `query_order_by_phone` (GET /api/order/query)
- `clear_all_orders` (POST /api/orders/clear)

It also models the two tables those endpoints use, `contact_info` and `order`.

The database is an immutable `Store` record. It holds two sequences:

- `contacts`: rows of `contact_info`;
- `orders`: rows of `order`.

Rows sit in the order they were written, so `contacts[i]` is the contact row written together
with `orders[i]`. A `clock` field stands in for the creation timestamp.

Each endpoint is a pure function:

- A writing endpoint returns a `Step`: the response together with the store after the call.
- A reading endpoint returns a `Response`.
- A response is `Ok(value)` or `Err(InvalidRequest | NotFound | StorageError)`. These stand for the
  400, 404 and 500 replies.

Modules:

- `Wrappers`: `Option`.
- `Text`: Python's `str.strip`, `str(int)`, `sep.join` and `split(sep)[0]`.
- `Schema`: rows and the store. Amounts (price times quantity, plus a 50 delivery fee) and key
  assignment:
  - surrogate key: one past the largest key, 1 for an empty table;
  - business order number: one past the largest, 1001 for an empty table.

  Also the order-to-contact lookup, and `Valid`, the invariant every reachable store keeps:
  - contacts pair with orders;
  - keys, order numbers and creation stamps increase;
  - every order is pending;
  - every amount equals the amount recomputed from the order's items and its contact's pickup type.
- `Checkout`: placing an order and clearing both tables.
- `Queries`: the staff listing and the phone lookup.
- `Lifecycle`: how the writing and reading endpoints fit together.
- `Scenarios`: concrete checkouts and lookups.

Behaviour of the code worth knowing when reading the model:

- **Staff listing content.** The bare `except` at app.py:179 also catches the AttributeError
  that `.split` raises at app.py:175 for a non-string `options` value, so such a cart shows the
  marker "無法解析訂單內容".
- **Empty phone.** The listing shows "N/A" for an empty stored phone (app.py:167).
- **Defaults differ by context.** A missing quantity counts as 0 in the amount but is shown as 1.
  A missing name is shown as "未知飲品" in the listing and as "飲品" in the lookup.
- **Phone match.** The lookup matches the stored phone by exact equality with the suffix
  (app.py:208). It is not a suffix match.

## Model

| member | source | states |
|---|---|---|
| `Text.Strip` | app.py:110-111 | the stored address text is the input with its leading and trailing whitespace removed (Python's whitespace set), and it is empty exactly when the input is all whitespace |
| `Text.StripUnique` | app.py:111 | there is only one way to strip a string, so the strip relation determines the stored address |
| `Text.NatToStringDecodes` | app.py:176 | the quantity text of a content line is decimal digits without a leading zero that read back as the quantity |
| `Text.IntToStringDecodes` | app.py:226 | any integer's text reads back as that integer, with a minus sign in front exactly when it is negative and no leading zero except in "0" itself |
| `Text.JoinConcat` | app.py:178 | joining the lines of two carts put together is joining each and putting ", " between them |
| `Text.FirstPiece` | app.py:175 | the option shown is the longest prefix before the first " / ", or the whole text when " / " does not occur |
| `Schema.SubtotalAppend` | app.py:89-91 | one more cart line adds its price times quantity to the running total, a missing price or quantity counting as 0 |
| `Schema.FeeFor` | app.py:94 | the fee is 50 exactly when pickupType is "delivery" and 0 otherwise, including when the key is missing |
| `Schema.NextRowId` | app.py:122-123 | a new row's key is larger than every key in its table, is 1 in an empty table, and is one past an existing key otherwise |
| `Schema.NextContactId` | app.py:122-123 | the new contact's key is larger than every contact key and 1 when there are no contacts |
| `Schema.NextOrderId` | app.py:138-139 | the new order's key is larger than every order key and 1 when there are no orders |
| `Schema.NextOrderNumber` | app.py:97-101 | the next order number is 1001 with no orders, otherwise larger than every existing number and one past an existing one |
| `Schema.EmptyStoreValid` | app.py:277-278 | the empty tables `db.create_all()` creates for a new database file satisfy the invariant that every endpoint preserves |
| `Schema.FindContact` | app.py:46-49 | the contact lookup finds nothing exactly when no contact has the key, and otherwise returns a contact with that key |
| `Schema.ContactLookup` | app.py:46-49 | in a valid store an order's contact key finds the very contact written with that order |
| `Schema.ContactOf` | app.py:165 | the contact an order reaches is the one written with it, and its key is the order's contact key |
| `Checkout.ComputeFinalAmount` | app.py:89-95 | the summing loop ends with the sum of price times quantity over the cart, plus the delivery fee |
| `Checkout.NormalizeAddress` | app.py:107-113 | a missing, empty or all-whitespace address is stored as absent; any other address is stored stripped and non-empty |
| `Checkout.PlaceOrder` | app.py:80-150 | a non-JSON request or one missing cartItems or contactInfo is refused with the store unchanged; a failed commit leaves the store unchanged. Otherwise exactly one contact and one order are appended and the old rows stay as they were. The new rows carry fresh keys, the defaults "N/A"/"pickup", the normalised address, the next order number, status pending, a link to the new contact and the computed amount, and the receipt reports that number and amount |
| `Checkout.AppendKeepsLinked` | app.py:116-133 | writing a contact with a fresh key and an order pointing at it keeps every order linked to its own contact |
| `Checkout.AppendKeepsSequence` | app.py:97-101 | writing an order with a fresh key, a larger number and the current stamp keeps keys, numbers and stamps increasing |
| `Checkout.AppendKeepsAmounts` | app.py:128-134 | writing a pending order whose amount matches its items and contact keeps every stored amount consistent |
| `Checkout.AppendKeepsValid` | app.py:116-139 | appending such a contact and order to a valid store gives a valid store |
| `Checkout.WrittenKeepsValid` | app.py:116-139 | the rows a checkout commits keep a valid store valid |
| `Checkout.PlaceOrderKeepsValid` | app.py:74-150 | every outcome of a checkout (refused, failed or committed) leaves a valid store valid |
| `Checkout.ClearAll` | app.py:256-273 | a failed clear changes nothing; a successful one empties both tables, keeps the clock and keeps the store valid |
| `Checkout.ClearRestartsNumbering` | app.py:256-268 | after a successful clear the next well-formed checkout gets order number 1001 and key 1 in both tables |
| `Checkout.PlaceOrderContinuesNumbering` | app.py:97-101 | when the stored numbers run 1001, 1002, ..., one more checkout adds exactly one order and continues the run |
| `Checkout.SequentialNumbering` | app.py:97-101 | N well-formed checkouts on an empty order table produce the numbers 1001 to 1000 + N in placement order |
| `Queries.ListLine` | app.py:174-177 | a cart line has a listing line exactly when its options value is missing or a string |
| `Queries.ListLines` | app.py:173-177 | the lines of a cart exist exactly when no options value is a non-string, and then there is one per cart line in order |
| `Queries.ListContent` | app.py:171-180 | a cart with a non-string options value is shown as the unparseable marker, an empty cart as "", a one-line cart as its line |
| `Queries.ListContentConcat` | app.py:178 | the listing content of two renderable carts put together is their contents joined by ", " |
| `Queries.QueryLines` | app.py:224-226 | the lookup has one "name x quantity" line per cart line, in cart order |
| `Queries.QueryContent` | app.py:222-227 | the lookup content of an empty cart is "" and that of a one-line cart is its line |
| `Queries.QueryContentConcat` | app.py:227 | the lookup content of two carts put together is their contents joined by ", " |
| `Queries.NewestFirst` | app.py:159-193 | the summaries of the first n orders come last-written first, each with its own contact |
| `Queries.ListAll` | app.py:159-195 | the listing holds one summary per order, each with its own contact, in strictly decreasing surrogate key order |
| `Queries.NewestFirstPrefix` | app.py:159 | stores agreeing on their first n rows summarise them alike |
| `Queries.NewestFirstAppend` | app.py:159 | one more row pair at the end puts its summary in front of the old ones |
| `Queries.ListAllAppend` | app.py:159-195 | listing a store with one more order lists that order first and then exactly the old listing |
| `Queries.ContactIdsWithPhoneMatch` | app.py:208-212 | an order's contact key is among the keys of contacts with the phone exactly when its own contact has the phone |
| `Queries.PositionsWithContact` | app.py:214 | the order filter keeps exactly the orders whose contact key is in the set, largest position first |
| `Queries.PositionsWithPhone` | app.py:208-214 | the positions kept are exactly those of orders whose contact has the phone, in decreasing order |
| `Queries.RowsAt` | app.py:217-238 | one lookup row per kept order, in the same order, built from that order and its own contact |
| `Queries.RowsAtSound` | app.py:214-238 | every row returned belongs to an order whose contact has the phone |
| `Queries.RowsAtComplete` | app.py:214-238 | the row of every order whose contact has the phone is returned |
| `Queries.RowsAtNewestFirst` | app.py:214 | rows come out with strictly decreasing creation stamps |
| `Queries.RowsWithPhone` | app.py:208-238 | the rows are exactly those of the orders whose contact has the phone, newest first |
| `Queries.FirstRowsDiffer` | app.py:214 | rows ordered newest first never repeat a row in first and second place |
| `Queries.OnlyRow` | app.py:214 | rows newest first that all equal one row hold it exactly once |
| `Queries.RowsNotAfterLast` | app.py:214 | no returned row is stamped later than the last order written |
| `Queries.LatestRowFirst` | app.py:214 | in rows newest first, a row stamped no earlier than any other is the first |
| `Queries.LastOrderFirst` | app.py:214 | when the last order written has the phone, its row is first in the lookup |
| `Queries.SingleOrderRows` | app.py:208-238 | in a store of one order whose contact has the phone, the lookup returns that order's row alone |
| `Queries.NoContactIdsWithPhone` | app.py:208-210 | no contact key matches exactly when no contact has the phone |
| `Queries.QueryByPhone` | app.py:202-240 | a malformed suffix is refused exactly when it is missing, empty, not 3 long or not all digits, whatever the store. NotFound comes exactly when the suffix is well formed and no contact has it as phone, and StorageError never occurs. Otherwise the result is exactly the rows of the orders whose contact has the phone, newest first |
| `Lifecycle.PlacedOrderListedFirst` | app.py:159 | after a checkout the listing shows the new order first and then the listing from before |
| `Lifecycle.PlacedOrderFoundFirst` | app.py:214 | after a checkout under a valid three-digit phone, the lookup by that phone returns the new order first |
| `Lifecycle.ClearThenList` | app.py:256-263 | after a clear the listing is empty, every well-formed lookup reports NotFound and every malformed one is still refused |
| `Scenarios.DeliveryAddsFee` | app.py:89-95 | two cups at 60 cost 120 for pickup and 170 for delivery, with order number 1001 |
| `Scenarios.PlaceThenQuery` | app.py:202-238 | a checkout of one Milk Tea for phone "123" is found by "123" as the single row "Milk Tea x 1" costing 60 |
| `Scenarios.SuffixExamples` | app.py:204-205 | "12", "12a", "1234" and a missing suffix are refused, and "123" is accepted |
| `Scenarios.OptionLineExample` | app.py:175-176 | a cart line of Milk Tea with options "L / less ice" and quantity 2 is listed as "Milk Tea (L) x 2" |
| `Scenarios.PlainLineExample` | app.py:175-176 | a cart line of Green Tea with no options and no quantity is listed as "Green Tea () x 1" |
| `Scenarios.TwoLineContent` | app.py:178 | a two-line cart whose lines render is listed as the two lines joined by ", " |
| `Scenarios.ListingContentExample` | app.py:174-178 | a cart of Milk Tea with options "L / less ice" and quantity 2 and Green Tea with no options or quantity is listed as "Milk Tea (L) x 2, Green Tea () x 1" |
| `Scenarios.MissingOrBlankAddress` | app.py:107-113 | a missing, empty or blank address is stored as absent |
| `Scenarios.TrimmedAddress` | app.py:110-111 | " 12 Main St " is stored as "12 Main St" |

## Left out

- HTTP routing, status codes, CORS, `jsonify` and `request.get_json` are framework I/O. Responses are the `Response` datatype.
- Session mechanics (`add`, `flush`, `commit`, `rollback`, `joinedload`) are not modelled step by step. Each endpoint is one atomic transition. A storage failure is the `storageFails` input, and it leaves the store unchanged.
- JSON text is not modelled (`json.dumps` of the cart, `json.loads` on read). Items are stored as a typed sequence, and reading them back always succeeds. So the "無法解析訂單內容" marker in the phone lookup (app.py:228-229) cannot arise, and the lookup content has no failure case.
- JSON values of the wrong type that make the code raise are not modelled; they end in an uncaught exception and a 500 reply. These are a `null` price or quantity (the product at app.py:91 fails), a `null` name, phone or pickupType (the NOT NULL columns refuse it at the flush, app.py:123), a truthy non-string address (`.strip` at app.py:111 fails), a cart line that is not an object, a `null` or non-object contactInfo, a `null` cartItems, and a body that is `null` or a number.
- JSON array and string bodies are not modelled. The membership test at app.py:85 is list membership or a substring test for them: a body lacking either key gets 400, while one containing both (the array `["cartItems", "contactInfo"]`, the string `"cartItems contactInfo"`) passes app.py:85 and raises TypeError at `data['cartItems']` (app.py:90), a 500.
- Float prices and quantities are not modelled: the code sums and stores them as given in the Float column (app.py:91, 95, 131), and the model uses integers, as it does for the amount.
- Number-valued name, phone or pickupType are not modelled: the code checks no types at app.py:105-108 and stores them as given; in the model these fields are strings.
- Cart lines, `cartItems` and addresses of other JSON types are not modelled, and the code accepts most of them. A `null` or numeric item name is shown through the f-string (a `null` name reads "None (…) x 1" at app.py:176 and "None x 1" at app.py:226). A boolean price or quantity counts as 1 or 0 in the product at app.py:91. A `cartItems` value that is `""` or `{}` behaves as an empty cart, while a number raises at app.py:90 and a non-empty string or object raises at app.py:91. A falsy non-string address such as `0` or `false` skips both branches at app.py:110-113 and is stored as given. In the model a cart line's name is `Option<string>`, its price and quantity are `Option<int>`, `cartItems` is a sequence of lines and the address is `Option<string>`.
- A `null` address needs no separate case: it takes neither branch at app.py:110 and app.py:112 and is stored as absent, exactly as `None` for a missing address is in the model.
- Timestamps and the UTC+8 zone are not modelled. `created` is a counter taken from the store's clock, and the ISO and `strftime` formatting of it is left out. Two orders never share a stamp, so ties in the lookup's ordering do not arise.
- `final_amount` is a Float column in the code. Amounts here are integers, because prices and quantities are integral.
- The race between reading the largest order number and inserting the new order is not modelled. It is a concurrency concern, and the model has a single writer.
- Surrogate keys follow the storage engine's rule for an integer primary key without AUTOINCREMENT: one past the largest key, 1 in an empty table. This is engine behaviour, not code in the file.
- `MENU_ITEMS`, `get_menu`, the `get_order_status` stub that always answers 404, the constant `deleted_count: 0` and the error message texts carry no behaviour worth proving.
- `db.create_all()` at startup is schema plumbing.
- Queries.QueryByPhone: accepts only the ASCII digits 0-9. Python's `str.isdigit` also accepts other Unicode digits, such as full-width or superscript ones.

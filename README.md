# Trem do Bem: a verified model of the order and cart core

Trem do Bem is a small storefront for goods sold by weight. Prices are per 100 g and amounts come in 100 g steps. This project models its core in Dafny:

- **Backend:** the order checkout and status update, the product endpoints, the product and order tables, and the numeric helpers.
- **WhatsApp:**
  - the backend's order-update message and webhook call;
  - the separate bot service that relays messages to WhatsApp.
- **Admin token:** the HMAC admin token and its `Bearer` middleware.
- **Web client:**
  - the quantity stepper;
  - the cart drawer and the home page's cart;
  - the admin dashboard (status counters, product editor, list updates);
  - the admin order search.

Money is held in integer cents throughout: R$ 8,90 is `890`. A price of `p` cents per 100 g for `g` grams costs `p*g/100` cents. The source rounds `price * grams/100` to two decimals, so the model rounds `p*g` hundredths of a cent to the nearest cent with halves going up (`Utils.RoundToCents`). For amounts in whole 100 g units no rounding happens, and the model proves it.

JavaScript values that the handlers test for truthiness are modelled explicitly:
- numbers that may be NaN or infinite (`Js.Number`);
- fields of unknown type (`Js.Value`);
- optional string fields (`Option<string>`).

Each module follows one source file:

| module | file | form |
|---|---|---|
| `Js`, `Text`, `Seqs` | JavaScript semantics used everywhere | functions and lemmas |
| `Domain` | `backend/src/types.ts` | datatypes |
| `Utils` | `backend/src/utils.ts` | functions |
| `Db` | `backend/src/db.ts`, `backend/src/store/store.ts` | a `Store` class with `products` and `orders` fields and methods that rewrite them |
| `ProductRoutes` | `backend/src/routes/products.ts` | methods on the store |
| `OrderRoutes` | `backend/src/routes/order.ts` | a checkout function, a loop method that prices the lines, and handler methods on the store |
| `Notify` | `backend/src/services/whatsapp.ts` | functions |
| `Bot` | `whatsapp-bot/src/index.ts` | a `Bot` class holding the readiness flag |
| `AdminAuth` | `backend/src/middleware/admin.ts` | functions |
| `Stepper` | `web/src/components/QuantityStepper.tsx` | functions |
| `Drawer` | `web/src/components/CartDrawer.tsx` | functions |
| `Home` | `web/src/pages/Home.tsx` | functions, a copy-and-assign method and the draft loop |
| `Dashboard` | `web/src/pages/AdminDashboard.tsx` | the counting loop, the copy-and-assign merge, functions |
| `OrderSearch` | `web/src/pages/AdminOrders.tsx` | functions |

Where the code and the project's documentation describe different behaviour, the model follows the code:
- A checkout line whose product does not exist rejects the whole order with `invalid_product`. Such lines are not skipped.
- The product may be inactive.
- The customer fields are tested for truthiness before they are trimmed. A name of spaces only therefore passes and is stored empty (`OrderRoutes.BlankNameAccepted`).
- An empty item list gets `missing_items`.
- The drawer's minus button keeps every entry only while all amounts are positive. Its trailing filter also drops another product's entry whose amount is 0 or less (`Drawer.DecDropsOtherEmptyEntry`).
- The drawer and the home page find a product through a `Map` built from the product list, which keeps the *last* product with a given id. The backend uses `find`, which returns the *first*. With distinct ids the two agree (`Drawer.LookupLastIsFind`).

One exception: the checkout quantises amounts with the corrected clamp, not with the route's own `clamp100g`. The two differ only on an amount of +Infinity (see the Findings and Left out sections below).

## Model

| member | source | states |
|---|---|---|
| `Utils.Round` | backend/src/utils.ts:13 | `Math.round`: the integer within half a unit of x, halves going up |
| `Utils.ClampTo100g` | backend/src/utils.ts:11-14 | `clampTo100g` gives a multiple of 100 that is at least 100, and 100 for any non-finite input |
| `Utils.ClampNearest` | backend/src/utils.ts:11-14 | for amounts of at least 50 g the result is the nearest multiple of 100; below 50 g it is 100 |
| `Utils.ClampExamples` | backend/src/utils.ts:11-14 | 150 goes to 200, 149 to 100, 250 to 300, and 0, -50 and NaN to 100 |
| `Utils.ClampKeepsHundreds` | backend/src/utils.ts:11-14 | a positive multiple of 100 is kept |
| `Utils.ClampIdempotent` | backend/src/utils.ts:11-14 | clamping a clamped amount changes nothing |
| `Utils.ClampMonotone` | backend/src/utils.ts:11-14 | more grams asked never gives fewer grams |
| `Utils.RoundToCents` | backend/src/utils.ts:16-18 | `round2` of an amount of hundredths of a cent: the whole number of cents within half a cent |
| `Utils.RoundToCentsExact` | backend/src/utils.ts:16-18 | whole cents are kept, and the rounded value is the only one within half a cent |
| `Utils.Id` | backend/src/utils.ts:5-9 | the id is at most 18 characters, a prefix of prefix+clock+random, and exactly 18 when that text is long enough |
| `Domain.ParseStatusRoundTrip` | backend/src/routes/order.ts:105 | the four accepted status strings are exactly the four statuses' wire names |
| `Domain.ParseStatus` | backend/src/routes/order.ts:105 | a parsed status has the given wire name, and nothing is parsed from a string that is no status's wire name |
| `Js.NumberOrZero` | backend/src/routes/order.ts:33 | `Number(x) \|\| 0` keeps every truthy number and turns NaN and 0 into 0, so it is never NaN |
| `Seqs.IndexOf` | backend/src/db.ts:77 | `findIndex`: the first index with the key, or -1 exactly when no element has it |
| `Seqs.Find` | backend/src/routes/order.ts:56 | `find`: nothing exactly when no element has the key; otherwise the first element with that key |
| `Seqs.FindIndex` | backend/src/db.ts:86 | the search loop returns the first matching index |
| `Seqs.FindUnique` | backend/src/db.ts:106 | with distinct keys the element found under a key is the one holding it |
| `Text.Trim` | backend/src/routes/order.ts:81-83 | `trim` leaves no white space at either end of its result |
| `Text.TrimIsSlice` | backend/src/routes/order.ts:81-83 | `trim` returns one contiguous slice of its input, with only white space cut off on either side |
| `Text.TrimEmptyIffBlank` | backend/src/routes/order.ts:84 | a string trims to empty exactly when it is all white space |
| `Text.TrimIdempotent` | web/src/pages/AdminDashboard.tsx:100 | trimming twice is trimming once |
| `Text.KeepDigits` | backend/src/services/whatsapp.ts:13 | `replace(/\D/g, "")` leaves only digits and never lengthens the text |
| `Text.KeepDigitsAppend` | backend/src/services/whatsapp.ts:13 | removing non-digits from a concatenation is concatenating the results |
| `Text.KeepDigitsOfDigits` | backend/src/services/whatsapp.ts:13 | a string of digits is kept whole |
| `Text.ReplaceAll` | backend/src/middleware/admin.ts:13-14 | a global one-character replace changes exactly the occurrences of that character |
| `Text.RemoveAll` | backend/src/middleware/admin.ts:12 | `replace(/=/g, "")` leaves no `=` |
| `Text.Split` | backend/src/middleware/admin.ts:37 | `split` always yields at least one part |
| `Text.SplitCount` | backend/src/middleware/admin.ts:37 | `split` gives one more part than there are separators |
| `Text.SplitPartsClean` | backend/src/middleware/admin.ts:37 | no part holds the separator |
| `Text.JoinSplit` | backend/src/middleware/admin.ts:37 | joining the parts with the separator gives the text back |
| `Text.SplitJoin` | backend/src/middleware/admin.ts:37 | splitting parts joined by a character they lack gives the parts back |
| `Text.ToBase` | backend/src/routes/order.ts:77 | `toString(radix)` writes at least one digit |
| `Text.FromToBase` | backend/src/routes/order.ts:77 | the digits written for a number read back as that number |
| `Text.ToBaseInjective` | backend/src/routes/order.ts:77 | different numbers are written differently |
| `Db.ActiveOnly` | backend/src/db.ts:66-69 | the public list holds only active stored products and is no longer than the table |
| `Db.ActiveOnlyAppend` | backend/src/db.ts:68 | the filter keeps the stored order |
| `Db.ActiveOnlyComplete` | backend/src/db.ts:68 | a product is listed exactly when it is stored and active |
| `Db.Upsert` | backend/src/db.ts:75-82 | the first product with the same id is replaced in place and nothing else changes; a new id goes first |
| `Db.UpsertKeepsIdsUnique` | backend/src/db.ts:75-82 | distinct ids stay distinct, and looking the id up afterwards finds the saved product |
| `Db.SetActive` | backend/src/db.ts:84-91 | null for an unknown id with the list unchanged; otherwise only the first match's `active` changes and it is returned |
| `Db.SetStatus` | backend/src/db.ts:104-111 | null for an unknown id with the list unchanged; otherwise only the first match's status changes and it is returned |
| `Db.Store.constructor` | backend/src/store/store.ts:35-43 | the store holds the given product and order lists |
| `Db.Store.GetPublicProducts` | backend/src/db.ts:66-69 | the filtering loop returns the active products in order |
| `Db.Store.UpsertProduct` | backend/src/db.ts:75-82 | the product table becomes the upsert of the old one; orders are untouched |
| `Db.Store.SetProductActive` | backend/src/db.ts:84-91 | result and new product table are those of `SetActive`; orders are untouched |
| `Db.Store.CreateOrder` | backend/src/db.ts:93-98 | the new order is put first; products are untouched |
| `Db.Store.UpdateOrderStatus` | backend/src/db.ts:104-111 | result and new order table are those of `SetStatus`; products are untouched |
| `ProductRoutes.Normalise` | backend/src/routes/products.ts:30-40 | missing id or name gives `missing_fields`; otherwise the stored product carries the id, name, `Number \|\| 0` price, image or default image, and `Boolean(active)` |
| `ProductRoutes.ActiveCoercion` | backend/src/routes/products.ts:39 | absent, null, 0 and "" are inactive; the string "false" is active |
| `ProductRoutes.GetPublic` | backend/src/routes/products.ts:16-19 | the public listing is the active products in stored order |
| `ProductRoutes.Post` | backend/src/routes/products.ts:27-47 | a rejected body changes nothing; an accepted one is upserted and returned |
| `ProductRoutes.PatchActive` | backend/src/routes/products.ts:50-59 | an unknown id gives 404 with nothing changed; otherwise the first match's flag becomes `Boolean(active)` |
| `OrderRoutes.ClampGramsAsWritten` | backend/src/routes/order.ts:32-35 | the route's own clamp returns +Infinity exactly for +Infinity |
| `OrderRoutes.ClampAsWrittenKeepsInfinity` | backend/src/routes/order.ts:32-35 | +Infinity passes the route's clamp, while `clampTo100g` makes it 100 |
| `OrderRoutes.ClampAgreesExceptInfinity` | backend/src/routes/order.ts:32-35 | on every other input the route's clamp equals `clampTo100g` |
| `OrderRoutes.TrimOrNone` | backend/src/routes/order.ts:84 | `field?.trim() \|\| undefined` is absent exactly for a missing or blank field, and otherwise the non-empty trimmed text |
| `OrderRoutes.MakeItem` | backend/src/routes/order.ts:59-70 | the item copies the product's id, name, price and image with the given grams, and its total is within half a cent of price times grams / 100 |
| `OrderRoutes.MakeItemExact` | backend/src/routes/order.ts:59-70 | for whole 100 g amounts the line total is price times hundreds of grams |
| `OrderRoutes.ItemFor` | backend/src/routes/order.ts:56-70 | a line has an item exactly when some product has its id; the item snapshots the first such product with the clamped amount |
| `OrderRoutes.Unpriced` | backend/src/routes/order.ts:55-57 | the first line without a product, or -1 when every line has one |
| `OrderRoutes.PriceLines` | backend/src/routes/order.ts:54-71 | fails exactly when a line has no product, naming the first such line; otherwise one item per line in order |
| `OrderRoutes.Sum` | backend/src/routes/order.ts:73-74 | `reduce` adding from the left gives the same sum of line totals |
| `OrderRoutes.SumAppend` | backend/src/routes/order.ts:73-74 | the subtotal of a concatenation is the sum of the subtotals |
| `OrderRoutes.SumRemove` | backend/src/routes/order.ts:73-74 | taking an item out takes its line total out of the sum |
| `OrderRoutes.SumPermutation` | backend/src/routes/order.ts:73-74 | the subtotal does not depend on the order of the items |
| `OrderRoutes.OrderId` | backend/src/routes/order.ts:77 | the id is `o_` followed by digits that read back in base 16 as the creation millisecond |
| `OrderRoutes.OrderIdsDistinct` | backend/src/routes/order.ts:77 | orders created at different milliseconds get different ids |
| `OrderRoutes.Checkout` | backend/src/routes/order.ts:40-93 | each of the three 400 replies is given exactly when its check fails first, and `invalid_product` names the first unknown line |
| `OrderRoutes.CheckoutAccepted` | backend/src/routes/order.ts:54-89 | an accepted order has one exact item per line in order, the sum of line totals as subtotal, status pending, and trimmed customer fields |
| `OrderRoutes.BlankNameAccepted` | backend/src/routes/order.ts:47 | a name of spaces only passes the check and is stored empty |
| `OrderRoutes.CheckoutExample` | backend/src/routes/order.ts:59-61 | 250 g at R$ 10,00 per 100 g becomes 300 g for R$ 30,00, and a blank reference is dropped |
| `OrderRoutes.PriceItems` | backend/src/routes/order.ts:54-71 | the pricing loop computes `PriceLines` |
| `OrderRoutes.PostOrder` | backend/src/routes/order.ts:40-93 | the reply is the checkout's, and only an accepted order is put first in the order table |
| `OrderRoutes.StatusUpdate` | backend/src/routes/order.ts:101-112 | `invalid_status` exactly for a missing or unknown status, `order_not_found` exactly for an unknown id, otherwise only the first match's status changes |
| `OrderRoutes.PatchStatus` | backend/src/routes/order.ts:101-121 | the reply and order table are those of `StatusUpdate`, and only an updated order triggers the notification |
| `Notify.StatusLabel` | backend/src/services/whatsapp.ts:5-10 | the label is never empty, and it is "Cancelado" exactly for every string other than the three live statuses |
| `Notify.StatusLabelsDistinct` | backend/src/services/whatsapp.ts:5-10 | the four statuses have four labels, and any other string is labelled "Cancelado" |
| `Notify.NormalizePhoneBR` | backend/src/services/whatsapp.ts:12-18 | empty exactly when the input has no digits; otherwise it starts with `+55` |
| `Notify.NormalizePhoneShape` | backend/src/services/whatsapp.ts:12-18 | empty exactly when there are no digits; otherwise `+`, then the digits, with 55 put first when they lack it |
| `Notify.DecimalComma` | backend/src/services/whatsapp.ts:22 | `toFixed(2)` with a comma always has at least four characters |
| `Notify.MoneyRoundTrip` | backend/src/services/whatsapp.ts:25 | the cents can be read back from the rendered amount |
| `Notify.MoneyIsOneLine` | backend/src/services/whatsapp.ts:25 | a rendered amount holds no line break |
| `Notify.Bullets` | backend/src/services/whatsapp.ts:21-23 | one bullet per item, in order |
| `Notify.KeepTruthyNonEmpty` | backend/src/services/whatsapp.ts:39 | `filter(Boolean)` keeps no empty line and never adds one |
| `Notify.KeepTruthyAppend` | backend/src/services/whatsapp.ts:39 | `filter(Boolean)` keeps the lines in their order |
| `Notify.ItemsBlockDash` | backend/src/services/whatsapp.ts:21-33 | the item block is a dash exactly when there are no items, and is never empty |
| `Notify.TemplateKept` | backend/src/services/whatsapp.ts:27-39 | the filter drops the three blank separators and an absent reference, keeping the other lines in order |
| `Notify.BulletIsOneLine` | backend/src/services/whatsapp.ts:22 | a bullet has no line break when its item name has none |
| `Notify.MessageIsJoinedLines` | backend/src/services/whatsapp.ts:27-39 | the kept template lines, joined, are the message lines joined by line breaks |
| `Notify.BuildMessage` | backend/src/services/whatsapp.ts:20-40 | the message is its lines joined by line breaks |
| `Notify.MessageLinesAreLines` | backend/src/services/whatsapp.ts:27-39 | no line is empty and none holds a line break when the order's texts hold none |
| `Notify.MessageSplitsIntoLines` | backend/src/services/whatsapp.ts:20-40 | splitting the message at line breaks gives back exactly its lines |
| `Notify.NotifyOrderUpdate` | backend/src/services/whatsapp.ts:42-73 | skipped exactly when disabled or without a url, then exactly when the phone has no digits; otherwise posts the normalised number, the message, the id and the status |
| `Notify.Enabled` | backend/src/services/whatsapp.ts:43 | the flag is on only when the setting is a filled four-letter word, and "true" turns it on |
| `Notify.EnabledExamples` | backend/src/services/whatsapp.ts:43 | "true" in any letter case enables; unset, empty and "1" do not |
| `Bot.NormalizeDigitsBR` | whatsapp-bot/src/index.ts:21-25 | empty exactly when the input has no digits; otherwise it starts with 55 |
| `Bot.NormalizeDigitsShape` | whatsapp-bot/src/index.ts:21-25 | empty exactly without digits; otherwise only digits, starting with 55, added when missing |
| `Bot.NormalizeDigitsIdempotent` | whatsapp-bot/src/index.ts:21-25 | normalising twice is normalising once |
| `Bot.NormalizeDigitsInternational` | whatsapp-bot/src/index.ts:16-25 | `+55…` and `55…` give the same digits unchanged |
| `Bot.NormalizeDigitsLocal` | whatsapp-bot/src/index.ts:16-25 | `(area) first-last` gives 55 followed by its digits |
| `Bot.BackendNumberSurvivesBot` | whatsapp-bot/src/index.ts:21-25 | the backend's normalised number reaches the bot as the same digits without the `+` |
| `Bot.NotifyReply` | whatsapp-bot/src/index.ts:63-89 | 400 exactly for a missing field, 503 exactly when not ready, 400 exactly without digits, 404 exactly for an unknown number; a send goes to the resolved chat with the given text |
| `Bot.Bot.constructor` | whatsapp-bot/src/index.ts:31 | the bot starts not ready |
| `Bot.Bot.OnReady` | whatsapp-bot/src/index.ts:38-41 | the ready event makes the bot ready |
| `Bot.Bot.OnAuthFailure` | whatsapp-bot/src/index.ts:43-46 | an authentication failure makes it not ready |
| `Bot.Bot.OnDisconnected` | whatsapp-bot/src/index.ts:48-51 | a disconnection makes it not ready |
| `Bot.Bot.Health` | whatsapp-bot/src/index.ts:55-57 | health reports ok and the readiness flag |
| `Bot.Bot.Notify` | whatsapp-bot/src/index.ts:63-89 | the handler answers `NotifyReply` for the current readiness |
| `AdminAuth.B64Char` | backend/src/middleware/admin.ts:11 | each 6-bit value maps to a base64 alphabet character |
| `AdminAuth.Base64` | backend/src/middleware/admin.ts:11 | base64 text has four characters per started group of three bytes |
| `AdminAuth.PadLen` | backend/src/middleware/admin.ts:18 | at most two padding characters are counted |
| `AdminAuth.Base64Padded` | backend/src/middleware/admin.ts:11 | the encoder writes well-formed padded base64 |
| `AdminAuth.UrlFromStd` | backend/src/middleware/admin.ts:8-15 | `b64urlEncode` leaves no `=`, `+` or `/` |
| `AdminAuth.UrlFromStdAlphabet` | backend/src/middleware/admin.ts:8-15 | from base64 only URL-safe characters come out, and never a `.` |
| `AdminAuth.StripPadding` | backend/src/middleware/admin.ts:12 | dropping `=` removes exactly the trailing padding |
| `AdminAuth.Pad` | backend/src/middleware/admin.ts:18 | the added padding brings the length to a multiple of 4 |
| `AdminAuth.StdFromUrl` | backend/src/middleware/admin.ts:17-19 | `b64urlDecode`'s text has a length that is a multiple of 4 |
| `AdminAuth.SwapBack` | backend/src/middleware/admin.ts:13-19 | the decoder's character swaps undo the encoder's |
| `AdminAuth.PadRestores` | backend/src/middleware/admin.ts:18-19 | the padding added back is the padding removed |
| `AdminAuth.UrlRoundTrip` | backend/src/middleware/admin.ts:8-21 | decoding's text mapping inverts encoding's for any padded base64 text |
| `AdminAuth.Sign` | backend/src/middleware/admin.ts:23-25 | the signature holds only URL-safe base64 characters, never the `.` separator |
| `AdminAuth.CreateToken` | backend/src/middleware/admin.ts:27-33 | a created token splits at `.` into exactly its payload and its signature |
| `AdminAuth.VerifyToken` | backend/src/middleware/admin.ts:35-57 | a token is accepted only with two parts, a matching signature, a payload that decodes, and an age within the limit |
| `AdminAuth.CreatedTokenVerifies` | backend/src/middleware/admin.ts:27-57 | a created token verifies under the same secret while not expired, giving its payload back |
| `AdminAuth.Expired` | backend/src/middleware/admin.ts:48-51 | a NaN `iat` or limit never expires; on finite numbers the token is expired exactly when `now - iat` exceeds the limit |
| `AdminAuth.ExpiryBoundary` | backend/src/middleware/admin.ts:48-51 | a token exactly the maximum age old is accepted, an older one is not, and a NaN age or limit never expires |
| `AdminAuth.ExtractBearer` | backend/src/middleware/admin.ts:61 | the token is the header after `Bearer `, and empty without that prefix |
| `AdminAuth.RequireAdmin` | backend/src/middleware/admin.ts:59-67 | no bearer token means 401; a let-through payload is the verified payload |
| `AdminAuth.BearerOfCreatedToken` | backend/src/middleware/admin.ts:59-67 | `Bearer` plus a fresh created token is let through with its payload |
| `Stepper.Dec` | web/src/components/QuantityStepper.tsx:8 | minus never goes under 100 g or moves by more than 100 g |
| `Stepper.Inc` | web/src/components/QuantityStepper.tsx:9 | plus adds exactly 100 g |
| `Stepper.StepperRoundTrips` | web/src/components/QuantityStepper.tsx:8-9 | minus undoes plus from 100 g up, plus undoes minus from 200 g up, and 100 g is minus's fixed point |
| `Stepper.DecMonotone` | web/src/components/QuantityStepper.tsx:8 | minus is monotone and moves an amount of at least 100 g by at most 100 g |
| `Drawer.LastIndexOf` | web/src/components/CartDrawer.tsx:20 | the `Map` keeps the last product with an id, and -1 means no product has it |
| `Drawer.LookupLast` | web/src/components/CartDrawer.tsx:20-24 | `byId.get` finds nothing exactly when no product has the id, and otherwise the last listed product with it |
| `Drawer.LookupLastIsFind` | web/src/components/CartDrawer.tsx:20 | with distinct ids the map lookup equals the backend's `find` |
| `Drawer.LineTotal` | web/src/components/CartDrawer.tsx:26-27 | the line total is within half a cent of price times grams/100, and exact for whole 100 g amounts |
| `Drawer.LineFor` | web/src/components/CartDrawer.tsx:23-28 | an entry has a line exactly when its product is known; the line carries the entry, the product and its total |
| `Drawer.Lines` | web/src/components/CartDrawer.tsx:22-30 | there are never more lines than cart entries |
| `Drawer.LinesAppend` | web/src/components/CartDrawer.tsx:22-30 | lines keep the cart's order |
| `Drawer.LinesMembership` | web/src/components/CartDrawer.tsx:22-30 | a line is shown exactly when it is the line of an entry whose product is known |
| `Drawer.LinesAllKnown` | web/src/components/CartDrawer.tsx:22-30 | when every product is known the lines follow the cart one to one |
| `Drawer.SumTotals` | web/src/components/CartDrawer.tsx:32 | `reduce` adding from the left gives the same sum of line totals |
| `Drawer.LinesNearRaw` | web/src/components/CartDrawer.tsx:22-32 | the line totals add up to within half a cent per line of the unrounded value of the lines |
| `Drawer.Subtotal` | web/src/components/CartDrawer.tsx:32 | the subtotal is within half a cent per shown line of the unrounded price-times-grams sum |
| `Drawer.Inc` | web/src/components/CartDrawer.tsx:34-36 | plus keeps the length and the ids, adds 100 g to the product's entries and leaves the others |
| `Drawer.IncTotal` | web/src/components/CartDrawer.tsx:34-36 | plus raises the cart's grams by 100 per entry of the product |
| `Drawer.Positive` | web/src/components/CartDrawer.tsx:42 | the filter keeps exactly the entries with a positive amount |
| `Drawer.PositiveOfPositive` | web/src/components/CartDrawer.tsx:42 | a cart of positive amounts passes the filter whole |
| `Drawer.DecEach` | web/src/components/CartDrawer.tsx:41 | minus keeps the length and ids, sets each of the product's entries to `max(100, grams - 100)`, and leaves the others |
| `Drawer.Dec` | web/src/components/CartDrawer.tsx:38-44 | after minus every amount is positive and the product's amounts are at least 100 g |
| `Drawer.DecKeepsEntries` | web/src/components/CartDrawer.tsx:38-44 | with all amounts positive, minus removes no entry |
| `Drawer.DecDropsOtherEmptyEntry` | web/src/components/CartDrawer.tsx:38-44 | minus on one product drops another product's empty entry |
| `Drawer.DecUndoesInc` | web/src/components/CartDrawer.tsx:34-44 | minus undoes plus on any cart of amounts of at least 100 g |
| `Drawer.Remove` | web/src/components/CartDrawer.tsx:46 | remove keeps exactly the entries of other products |
| `Drawer.RemoveAppend` | web/src/components/CartDrawer.tsx:46 | remove keeps the order of the others |
| `Drawer.RemoveProperties` | web/src/components/CartDrawer.tsx:46 | an absent product leaves the cart unchanged; afterwards the product has no entry, exactly its entries are gone, and removing again changes nothing |
| `Drawer.Clear` | web/src/components/CartDrawer.tsx:126 | clear leaves the cart empty |
| `Drawer.ClearShowsNothing` | web/src/components/CartDrawer.tsx:126 | after clear the drawer shows no line and a zero subtotal, for every catalogue |
| `Home.InitDrafts` | web/src/pages/Home.tsx:39-42 | the draft loop gives exactly the listed ids a draft, each of 100 g |
| `Home.Amount` | web/src/pages/Home.tsx:61 | the amount added is the draft unless it is missing or 0, then 100 g |
| `Home.InitialAmount` | web/src/pages/Home.tsx:61 | after initialisation every product is added 100 g at a time |
| `Home.AddToCart` | web/src/pages/Home.tsx:60-70 | an existing product's first entry grows by the amount and nothing else changes; a new product is appended |
| `Home.AddToCartCopy` | web/src/pages/Home.tsx:62-70 | the copy-and-assign updater computes `AddToCart` |
| `Home.AddToCartTotal` | web/src/pages/Home.tsx:62-70 | adding raises the cart's grams by exactly the amount |
| `Home.AddToCartKeepsUnique` | web/src/pages/Home.tsx:62-70 | one entry per product stays one entry per product, and the product is then in the cart |
| `Home.RemoveUndoesNewEntry` | web/src/pages/Home.tsx:69 | the drawer's remove takes a newly added product out again, restoring the cart |
| `Home.CartCount` | web/src/pages/Home.tsx:49 | the item count is the cart's grams divided by 100 |
| `Home.HomeSum` | web/src/pages/Home.tsx:51-56 | the header's unrounded sum is the unrounded value of exactly the lines the drawer shows |
| `Home.DrawerSubtotalNearHeader` | web/src/pages/Home.tsx:50-58 | for every cart the drawer's subtotal is within half a cent per shown line of the sum the header rounds once |
| `Home.HomeSubtotal` | web/src/pages/Home.tsx:50-58 | the header subtotal is within half a cent of the unrounded sum over known products |
| `Home.LineTotalsAddUp` | web/src/pages/Home.tsx:52-57 | with whole 100 g amounts the drawer's totals add up to the unrounded sum |
| `Home.SubtotalsAgree` | web/src/pages/Home.tsx:50-58 | with whole 100 g amounts the header and the drawer show the same subtotal |
| `Home.SubtotalsCanDiffer` | web/src/pages/Home.tsx:50-58 | with 50 g amounts they can differ: 5 cents in the header against 6 in the drawer |
| `Dashboard.CountStatus` | web/src/pages/AdminDashboard.tsx:74 | a count never exceeds the number of orders |
| `Dashboard.CountIsCardinality` | web/src/pages/AdminDashboard.tsx:67-76 | the count of a status is the number of orders that have it |
| `Dashboard.ByStatus` | web/src/pages/AdminDashboard.tsx:67-76 | the counting loop gives each status its count |
| `Dashboard.CountsCoverAll` | web/src/pages/AdminDashboard.tsx:67-76 | the four counters add up to the number of orders |
| `Dashboard.Clean` | web/src/pages/AdminDashboard.tsx:98-104 | name and image trimmed, `Number \|\| 0` price, `!!active`, the id kept |
| `Dashboard.DraftOf` | web/src/pages/AdminDashboard.tsx:84 | the edit form holds the product's fields, and reading its price and flag back gives the product's price and flag |
| `Dashboard.CleanIdempotent` | web/src/pages/AdminDashboard.tsx:98-104 | re-editing a cleaned product and saving sends the same product |
| `Dashboard.ServerStoresCleaned` | web/src/pages/AdminDashboard.tsx:98-106 | the server refuses a cleaned product exactly when its id is empty or its name blank, and otherwise stores it, with the default image for a blank image |
| `Dashboard.SaveMerge` | web/src/pages/AdminDashboard.tsx:108-116 | the page's product list takes in a save the way the server's table does |
| `Dashboard.ReplaceById` | web/src/pages/AdminDashboard.tsx:81 | elements with the id become the replacement; all others and the length stay |
| `Dashboard.ReplaceAbsent` | web/src/pages/AdminDashboard.tsx:123 | an absent id leaves the list unchanged |
| `Dashboard.ToggleMirrorsServer` | web/src/pages/AdminDashboard.tsx:78-82 | with distinct ids the page's list after a toggle equals the server's |
| `Dashboard.SetStatusMirrorsServer` | web/src/pages/AdminDashboard.tsx:121-124 | with distinct ids the page's order list after a status change equals the server's |
| `Dashboard.NewProduct` | web/src/pages/AdminDashboard.tsx:86-93 | a new form has an empty name, price 0, active, the default image and a `p_` id |
| `Dashboard.NewProductIdsDistinct` | web/src/pages/AdminDashboard.tsx:88 | forms opened at different milliseconds get different ids |
| `Dashboard.NewProductNeedsName` | web/src/pages/AdminDashboard.tsx:86-104 | a new form saved without a name is refused |
| `Dashboard.NewProductNamed` | web/src/pages/AdminDashboard.tsx:86-104 | a new form saved with a name is stored with the name trimmed and every default kept |
| `OrderSearch.StatusLabel` | web/src/pages/AdminOrders.tsx:14-19 | every status has a non-empty label |
| `OrderSearch.StatusLabelAgrees` | web/src/pages/AdminOrders.tsx:14-19 | the list's labels are the message's labels, four distinct ones |
| `OrderSearch.Query` | web/src/pages/AdminOrders.tsx:46 | the compared query is never longer than what was typed |
| `OrderSearch.Select` | web/src/pages/AdminOrders.tsx:48-53 | the filter keeps exactly the orders whose id, name, phone or address contains the query |
| `OrderSearch.SelectAppend` | web/src/pages/AdminOrders.tsx:48-53 | the filter keeps the list's order |
| `OrderSearch.Filtered` | web/src/pages/AdminOrders.tsx:45-54 | a blank query shows the list unchanged; otherwise an order is shown exactly when it matches |
| `OrderSearch.BlankQueryShowsAll` | web/src/pages/AdminOrders.tsx:46-47 | a query of white space shows every order |
| `OrderSearch.SelectEmptyIsAll` | web/src/pages/AdminOrders.tsx:46-53 | the shortcut for a blank query agrees with the filter |
| `OrderSearch.TrimLower` | web/src/pages/AdminOrders.tsx:46 | trimming and lower-casing commute |
| `OrderSearch.QueryIgnoresCase` | web/src/pages/AdminOrders.tsx:45-54 | a query and its lower-cased form find the same orders |

## Left out

- Floating-point arithmetic and `Number.EPSILON`. Amounts are exact integers of cents, and rounding is exact rounding of hundredths of a cent. Prices with fractions of a cent cannot be expressed.
- File and network I/O: `readDb`/`writeDb`, the seed file, `fetch`, the WhatsApp client, Express routing, CORS and `localStorage`. Both `db.ts` and the in-memory `store.ts` become the one `Db.Store` class.
- The clock and randomness are inputs: `nowMs`, `createdAt` and the random hex digits of `id`.
- HMAC-SHA256 (the `Hmac` parameter), base64 decoding of bytes, UTF-8 and `JSON.parse` are given as function parameters. Only the text transforms around them are modelled.
- The three-segment tokens of the `jsonwebtoken` login route, which `verifyAdminToken` would reject, are not part of this model.
- Logging (`console.log`), the QR code event, `client.initialize` and the React rendering are left out.
- `Text.Lower`: only ASCII letters are lower-cased. Other case mappings of `toLowerCase` are not modelled.
- `Text.Trim`: white space is the ECMAScript white-space and line-terminator set. Any other Unicode space separators beyond those listed are not modelled.
- `Drawer.Inc`: cart amounts are whole numbers of grams. A cart restored from `localStorage` with fractional or non-numeric amounts is not modelled.
- `Home.CartCount`: the count is an exact real, not a double.
- `Drawer.Subtotal`: the sum of whole-cent line totals is not rounded again, because rounding whole cents changes nothing.
- Request fields that are not strings (a number as a name, an object as a phone) are not modelled: customer and product text fields are strings or absent.
- `OrderRoutes.ItemFor`: quantises an amount with `Utils.ClampTo100g`, not with the route's `clamp100g` (backend/src/routes/order.ts:32-35). A +Infinity amount therefore becomes 100 g here, while the route stores Infinity grams and an Infinity (or NaN) line total. `OrderRoutes.ClampAgreesExceptInfinity` proves the two clamps agree on every other input.
- `OrderRoutes.PriceLines`: its items come from `ItemFor`, so a +Infinity amount is priced as 100 g.
- `OrderRoutes.PriceItems`: computes `PriceLines`, with the same +Infinity difference.
- `OrderRoutes.Checkout`: an accepted order with a +Infinity amount gets a 100 g item and a finite subtotal, where the route stores Infinity.
- `OrderRoutes.CheckoutAccepted`: states `grams == Utils.ClampTo100g(...)`, which is the route's value for every amount except +Infinity.
- `OrderRoutes.PostOrder`: stores `Checkout`'s order, so it shares the +Infinity difference.
- `AdminAuth.VerifyToken`: an exception thrown by the HMAC or by decoding is modelled as a decoder answering `None`.
- `Notify.NotifyOrderUpdate`: the webhook's response body is not modelled, and a failing `fetch` is the `fetchFails` input.

## Findings

| source | as written | input that shows it | evidently intended | confidence | as-written member | corrected member |
|---|---|---|---|---|---|---|
| backend/src/routes/order.ts:32-35 | `clamp100g` uses `Number(grams) \|\| 0`, which only replaces NaN and 0, so `Math.round(Infinity / 100) * 100` stays +Infinity and `Math.max(100, Infinity)` returns it | a line with `grams` of `1e400` (JSON parses it to +Infinity) is stored with infinite grams and an infinite line total | clamp every non-finite amount to 100 g, as `clampTo100g` in backend/src/utils.ts:11-14 does | not executed | `OrderRoutes.ClampAsWrittenKeepsInfinity` | `Utils.ClampTo100g` |

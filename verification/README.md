# A verified model of the shop back end

The repository is a Django application in which shops publish price lists and customers order from them. This
project models its data layer as one relational store on which every request handler and background task acts one
SQL statement at a time, and proves what those programs do to the store: alone, one after another, stopped midway,
and interleaved.

No handler or task opens a transaction (`settings.py` sets no `ATOMIC_REQUESTS`), so a failure leaves a prefix of
its writes behind. That is why most results speak of prefixes of programs, not only of finished ones.

## How the model is built

| file | what it holds |
|---|---|
| `Collections.dfy` | lookups by value, reading in id order, sums over tables |
| `Schema.dfy` | the tables of `models.py` as a value (`Db`) and `Integrity`: foreign keys, uniqueness, lengths, ranges |
| `Sql.dfy` | each SQL statement as a function on `Db`, with its refusals and its cascades |
| `Machine.dfy` | a small-step machine: a program is a list of statements over a few local variables |
| `Store.dfy` | the database as a mutable object; its methods are proved against `Sql` |
| `PriceList.dfy`, `Tasks.dfy` | the price-list task: its program, and its nested loops over the mutable store |
| `Requests.dfy`, `Handlers.dfy` | the other requests: their programs, and their loops over the mutable store |
| `Catalogue.dfy`, `Money.dfy`, `Mail.dfy` | the read side: listings, totals, recipients of the order mail |
| `Shown.dfy` | what customers and shops are shown of orders, and how requests move it |
| `Acceptance.dfy`, `Underway.dfy`, `Outcome.dfy` | when an import succeeds, and what holds after each of its statements |
| `Views.dfy`, `Renaming.dfy` | the store without its generated ids, and why two stores with one view differ only in those |
| `ImportTheorems.dfy`, `FailedImport.dfy` | main results about imports: those that succeed, and exactly what one that fails leaves |
| `BasketTheorems.dfy`, `OrderLife.dfy` | main results about baskets, checkout and deletions; about placed orders |
| `Serial.dfy`, `Interleaving.dfy`, `SerialPlay.dfy` | whole runs: requests one after another; any interleaving with a task queue; the first as a case of the second |
| `LineLoss.dfy` | exactly when a line of a placed order goes, for one request and for whole serial runs |
| `Races.dfy`, `KeyRaces.dfy`, `Returns.dfy` | what fails when requests overlap, exactly at which steps, and runs that reach them |
| `IdList.dfy`, `IdTexts.dfy` | the comma-separated id lists of the delete requests, and which texts they take, on characters |

`get_or_create` is two statements, a lookup and an insert, so the race between them is in the model; for a category
it is one, because the primary key decides. A loop is unrolled over its data; an exception or an early return ends
the program. The imperative methods in `Tasks.dfy` and `Handlers.dfy` have the source's own loops and exits, and
each is proved to end in the state its program reaches; the theorems are about those programs. Under them,
`Storage.Store` has one method for each SQL statement (`backend/tasks.py:26-62`, `backend/views.py:106-107`, `186-188`,
`232`, `264-265`, `278`, `359-365`, `backend/serializers.py:91-97`): lookups that tell no row, one row and several apart;
inserts refused for a broken key, uniqueness rule, length or range; updates; and deletes with their cascades. Each is
proved to leave the state its `Sql` function gives, or to change nothing when refused.

## Assumptions

- Each SQL statement is atomic, a cascading delete included. A refused statement changes nothing.
- The admin site is not used during a run. No user account is created, deleted or changed: deleting one, which the
  account library offers, would cascade to the user's shop, contacts and orders.
- Integer columns hold 0..2147483647, generated ids count up from 1 and are not reused.
- A refused insert does not use up an id; which ids are skipped makes no difference to any result here.
- "Serial" means requests are served one at a time, each finished, failed or cut off after any number of statements.
- The rows a serializer lists for one product are read in id order, like the products themselves
  (`views.py:139` orders only the latter).
- Request bodies and price lists arrive parsed. A field is missing, of a kind its column or serializer rejects, or a
  value; a text is what its column would store. Id lists are ASCII.

## What is false of the code

- One basket for each user is not kept when requests overlap. `Races.SecondBasketExactlyWhenStale` names the one step
  that breaks it, a basket made on a lookup that is out of date, and `KeyRaces.OneBasketExactlyWithoutStaleOpens` proves
  that a run keeps one basket for each user if and only if it has no such step. Any two basket requests of a user without
  a basket can reach one, from the empty store on (`Races.RaceMakesTwoBaskets`, `Races.EmptyStoreReachesTwoBaskets`).
  Served one at a time there is none (`Serial.SerialRunsKeepKeysUnique`).
- The keys of shops, products and parameters are not kept unique either. `KeyRaces.KeyRepeatsExactlyWhenStale` and
  `KeyRaces.KeysUniqueExactlyWithoutStaleInserts` give the exact steps and the run version for all of them.
  `KeyRaces.EmptyStoreReachesTwoShops` and `KeyRaces.EmptyStoreReachesTwoProducts` show two overlapping imports reaching
  such a step from the empty store, `KeyRaces.RaceMakesTwoParameters` two that are about to look up one name; from then
  on every import that uses the key fails (`KeyRaces.RepeatedKeyBlocksImports`).
- A placed order can gain a line, have a quantity changed or lose a line through a basket request that looked its basket
  up before checkout. `Races.LinesChangeExactlyWhenStale` gives the exact steps, for all three statements, and
  `Races.LinesHeldExactlyWithoutStaleLines` the run version; `Races.RaceGrowsPlacedOrder` shows a run. Served one at a
  time it cannot happen (`OrderLife.PlacedOrderLife`).
- An order that was deleted can come back. Served one at a time its id is never used again; but a checkout that loaded
  the order before its contact was deleted saves it again, without its lines. `Returns.OrderReturnsExactlyWhenStale` and
  `Returns.GoneExactlyWithoutStaleSaves` give the exact steps and the run version, `Returns.RaceReturnsOrder` and
  `Returns.EmptyStoreReachesReturn` runs that reach one.
- A failed import does not leave the shop as it was. `FailedImport.FailedImportExactly` says, from the store and the
  document alone, exactly what stays.
- The product table does not only grow, and a line of a placed order does not go only by an import of its seller or with
  its contact: the product-image endpoint deletes products for any logged-in user
  (`netology_diplom/netology_diplom/urls.py:30`, `backend/views.py:359-365`). Over a serial run a product stays if and
  only if no call of the run gets as far as deleting it (`Serial.ProductKeptExactlyWhenNotDeleted`). One request takes a
  line of a placed order if and only if it gets as far as deleting the old rows of its seller, its product or the contact
  of its order (`LineLoss.LineTakenExactly`), and over a run a line is lost if and only if one of its calls does so
  (`LineLoss.LineLostExactlyWhenTaken`).
- The contact reader and the basket reader of id lists agree on a text if and only if all its pieces are digits
  (`IdList.ReadersAgreeExactlyOnDigits`).

## Model

| member | source | states |
|---|---|---|
| `Tasks.ImportShop` | netology_diplom/backend/tasks.py:25-34 | shop lookup or creation and its two error exits leave the state the shop stage of the program reaches |
| `Tasks.ImportCategory` | netology_diplom/backend/tasks.py:36-39 | one turn of the category loop, including a failure between its statements |
| `Tasks.ImportGood` | netology_diplom/backend/tasks.py:43-62 | one turn of the goods loop with its inner parameter loop, stopped wherever it fails |
| `Tasks.UpdateShopPriceList` | netology_diplom/backend/tasks.py:15-66 | the whole task with its nested loops and exits changes the store as the import program does, and reports success exactly when no statement failed |
| `Acceptance.ParametersStage` | netology_diplom/backend/tasks.py:56-62 | the inner loop succeeds exactly on distinct, unused, well-formed names, and then the row reads as before plus the given pairs in order |
| `Acceptance.GoodStage` | netology_diplom/backend/tasks.py:44-62 | one good succeeds exactly when its product, row and parameters are acceptable, and appends exactly its listing |
| `Acceptance.GoodsStage` | netology_diplom/backend/tasks.py:43-62 | the goods loop succeeds exactly when every good is acceptable in the store before the loop, and appends the listings in document order |
| `Outcome.ShopStage` | netology_diplom/backend/tasks.py:25-34 | succeeds exactly when the name is free and the user has no shop, or the one shop of that name is the user's |
| `Outcome.CategoriesStage` | netology_diplom/backend/tasks.py:36-39 | succeeds exactly when the entries agree with the table and with each other; then all are named and linked |
| `Outcome.ImportSucceedsExactlyWhenAccepted` | netology_diplom/backend/tasks.py:15-66 | an import succeeds if and only if a condition on the store and the document, decidable before the run, holds |
| `Outcome.PrefixUnderway` | netology_diplom/backend/tasks.py:25-62 | after any number of statements, the store differs from the starting one only as the document and the user's own shop allow, table by table |
| `Outcome.AcceptanceMoved` | netology_diplom/backend/tasks.py:25-66 | no prefix of an import changes whether that import is acceptable |
| `Views.ImportRefinesApply` | netology_diplom/backend/tasks.py:15-66 | the view of the store after a successful import is one function of the view before and the document: shop, categories, links, the number of product and parameter rows of each key, every catalogue in order, and the surviving order lines with the place of their good |
| `Views.ApplyPartway` | netology_diplom/backend/tasks.py:25-62 | from any view between the start and the end of an import, a full import leads to the same view |
| `Renaming.SameViewIsRenaming` | netology_diplom/backend/models.py:131-283 | any two sound stores with one view are the same store up to a one-to-one renaming of the ids of shops, products, parameters, ProductInfo rows and their values, row by row in every table |
| `ImportTheorems.ImportRoundTrip` | netology_diplom/backend/serializers.py:44-55 | after a successful import the shop's catalogue, read in id order through its joins, gives back the goods of the document in order, field by field, with every parameter, and every category named and linked |
| `ImportTheorems.CrashThenRetryConverges` | netology_diplom/backend/tasks.py:25-66 | wherever an import stopped, running it again succeeds exactly when the undisturbed run does and reaches the same view |
| `Renaming.RetryIsRenaming` | netology_diplom/backend/tasks.py:25-66 | so it reaches the same store up to generated ids |
| `ImportTheorems.LaterDocumentConverges` | netology_diplom/backend/tasks.py:25-66 | after an import was cut off, a different later document that succeeds gives the catalogue it would have given without it |
| `ImportTheorems.ImportIdempotent` | netology_diplom/backend/tasks.py:25-62 | importing again succeeds, leaves every shared table and the view as they were, and gives the ProductInfo rows and parameter values of the shop ids that were not in use |
| `Renaming.RepeatIsRenaming` | netology_diplom/backend/tasks.py:25-62 | so the store after the second import is the store after the first up to generated ids |
| `ImportTheorems.ImportsCommute` | netology_diplom/backend/tasks.py:36-62 | imports of two users that succeed in either order reach the same view, although they share tables |
| `Renaming.OrderIsRenaming` | netology_diplom/backend/tasks.py:36-62 | so they reach the same store up to generated ids |
| `FailedImport.FailedImportExactly` | netology_diplom/backend/tasks.py:25-66 | an import fails with nothing changed if the shop is refused; with the shop and the categories and links of the entries before the first bad one if the categories are; otherwise with the catalogue being the goods before the first bad one, then that good with its parameters before the first bad one if it got its row, and with exactly the products and parameter names looked up by then |
| `ImportTheorems.ImportTouchesOnlyItsShop` | netology_diplom/backend/tasks.py:36-54 | however it ends, an import leaves accounts, orders and all other shops, catalogues, links and order lines alone; its own order lines go all together or not at all |
| `Money.MoneyIsConserved` | netology_diplom/backend/views.py:331-333 | the total the customer of a placed order is shown is the sum of what the shops' own lines come to, and is null exactly when no shop lists the order |
| `Money.ListedExactly` | netology_diplom/backend/views.py:331-332 | a shop is shown an order, of any status, if and only if it is not a basket and some line of it sells a good of the shop, whatever shop the line records |
| `Shown.EachOrderShownOnce` | netology_diplom/backend/views.py:173-215 | a user's placed orders and baskets are shown apart and are all of the user's orders; no shop is shown an order its customer is not |
| `Shown.ListsAddUp` | netology_diplom/backend/views.py:331-333 | the totals in the shops' own lists add up to the total in the customer's list |
| `Shown.CheckoutMovesOrder` | netology_diplom/backend/views.py:184-188 | a checkout that succeeds moves the order from the customer's basket view to the orders with the total it had, adds it to the lists of exactly the shops that sell its lines, and changes no other user's views |
| `Shown.BasketRequestsKeepLists` | netology_diplom/backend/views.py:232-278 | no basket request, finished, failed or cut short, changes what any shop is shown, or any customer of placed orders |
| `Shown.ImportListsExactly` | netology_diplom/backend/tasks.py:41 | an import that gets as far as deleting the old rows empties the shop's own list of orders, old ones too, and no other; one that does not changes none |
| `Money.ShareIsShopTotal` | netology_diplom/backend/views.py:331-333 | the lines that sell a user's goods are the lines the user's shop sums for the order |
| `Money.ImportEffectOnTotal` | netology_diplom/backend/tasks.py:41 | whatever an import's outcome, an order's total is unchanged or drops by exactly the importing shop's share |
| `Handlers.OpenBasketOf` | netology_diplom/backend/views.py:232 | `get_or_create` of the basket: the two statements and the ambiguous case |
| `Handlers.PostBasketOf` | netology_diplom/backend/views.py:219-245 | the loop with its early returns changes the store as its program does and reports the number of entries exactly when none fails |
| `Handlers.ChangeLine` | netology_diplom/backend/views.py:262-265 | one turn of the PUT loop: raises, skips or updates as the types of the entry say |
| `Handlers.PutBasketOf` | netology_diplom/backend/views.py:247-266 | the loop with its accumulator changes the store as its program does and reports the updates made |
| `Handlers.DeleteBasketOf` | netology_diplom/backend/views.py:268-279 | an empty list is an error before the basket is opened; otherwise the listed lines go and their number is reported |
| `Handlers.PostOrderOf` | netology_diplom/backend/views.py:178-201 | the load, the change of contact and status, the save, the mail task queued exactly when the order was placed, and every error exit |
| `Handlers.DeleteContactsOf` | netology_diplom/backend/views.py:98-111 | an unreadable list deletes nothing; otherwise the reported number is what the cascade removed |
| `Handlers.DeleteProductOf` | netology_diplom/backend/views.py:359-365 | deletes any product for any user, and reports whether it was there |
| `BasketTheorems.PutIsLastWriteWins` | netology_diplom/backend/views.py:260-266 | each line of the caller's basket ends with the last well-typed quantity that names it before the first refused entry, nothing else moves, and the answer counts matches with repeats |
| `BasketTheorems.PutTotal` | netology_diplom/backend/views.py:214-215 | a served PUT moves the total shown for the caller's basket by the sum of (new - old) * price over what it wrote, keeps a null total null, and moves no other total |
| `BasketTheorems.PostKeepsLongestGoodPrefix` | netology_diplom/backend/views.py:232-245 | the new lines are exactly the entries before the first bad one, all in the caller's basket whatever order they named, and stay when a later entry fails |
| `BasketTheorems.PostTotal` | netology_diplom/backend/views.py:214-215 | a served POST raises the total shown for the caller's basket by the values of the lines it stored, from null if it was null, whether or not a later entry fails, and moves no other total |
| `BasketTheorems.LineDeletionIsExact` | netology_diplom/backend/views.py:276-279 | exactly the listed lines of the caller's own basket go, and the answer is how many |
| `BasketTheorems.LineDeletionTotal` | netology_diplom/backend/views.py:214-215 | the basket's total falls by what those lines were worth, to null when they were all, and no other total moves |
| `BasketTheorems.WithoutArguments` | netology_diplom/backend/views.py:271-274 | a request without its arguments changes nothing, and an empty deletion does not even open the basket |
| `BasketTheorems.ContactAdditionIsExact` | netology_diplom/backend/views.py:87-94 | a registered caller gets exactly one more contact, the caller's own, under an unused id |
| `BasketTheorems.ContactAdditionUndone` | netology_diplom/backend/views.py:105-108 | deleting that contact by its id takes it alone and leaves the store as before but for the used id |
| `BasketTheorems.PaddedContactDeletion` | netology_diplom/backend/views.py:105-108 | a list of numbers padded with white space in any way deletes exactly the caller's contacts among them, with their orders and lines |
| `BasketTheorems.UnreadableListDeletesNothing` | netology_diplom/backend/views.py:105-110 | a list with one piece that does not read deletes nothing |
| `BasketTheorems.ContactDeletionIsExact` | netology_diplom/backend/views.py:105-108 | exactly the caller's listed contacts, their orders and those orders' lines go, and the answer equals the fall in the store's row count |
| `BasketTheorems.ProductDeletionIsExact` | netology_diplom/backend/views.py:359-365 | exactly the product goes, its ProductInfo rows in every shop, and the parameter values and order lines of those; a missing product changes nothing |
| `BasketTheorems.ProductDeletionTotal` | netology_diplom/backend/views.py:173-174 | the total shown for every order then drops by exactly what its lines of that product were worth, to null when they were all |
| `BasketTheorems.CheckoutIsExact` | netology_diplom/backend/views.py:184-188 | succeeds if and only if the order is the caller's and the contact is stored or null; it gives that one order that contact, makes it new and takes it from the user's baskets |
| `OrderLife.RequestKeepsPlacedOrder` | netology_diplom/backend/views.py:184-188 | one request, finished or cut short, keeps a placed order placed, with its owner, and its lines as they are or gone, and says which request may take what |
| `OrderLife.PlacedOrderLife` | netology_diplom/backend/views.py:178-279 | over any serial run a placed order never becomes a basket again, and no line is gained or changes quantity, product or price |
| `OrderLife.PlacedTotalNeverRises` | netology_diplom/backend/views.py:173-174 | so the total shown for it never rises over any serial run, and stays null once it is |
| `LineLoss.LineTakenExactly` | netology_diplom/backend/tasks.py:25-41 | one request, stopped after any number of statements, takes a line of a placed order if and only if it is an import of its seller that is acceptable up to the deletion and gets past it, or gets as far as deleting the line's product or the contact of its order |
| `LineLoss.LineLossExplained` | netology_diplom/backend/tasks.py:41 | a line that a serial run lost was taken by one particular call, which found it there |
| `LineLoss.LineLostExactlyWhenTaken` | netology_diplom/backend/views.py:178-279 | over any serial run a line of a placed order is lost if and only if one of the calls takes it; it never comes back |
| `LineLoss.ImportItemsExactly` | netology_diplom/backend/tasks.py:36-41 | an import takes all order lines that sell the user's goods if it is acceptable up to the deletion and gets past it, and no line otherwise |
| `LineLoss.ImportTotalExactly` | netology_diplom/backend/tasks.py:41 | the total shown for every order then drops by exactly that share in the first case, to null when the share was all of it, and is unchanged in the second |
| `OrderLife.RunWritesOnlyBasketOrNew` | netology_diplom/backend/models.py:8-16 | of the seven declared statuses a run only ever writes basket and new |
| `Serial.StepStaysLone` | netology_diplom/backend/tasks.py:26-57 | every statement keeps shop, product and parameter keys and baskets unique and never renames a category, given that lookups are still current |
| `Serial.SerialRunsKeepKeysUnique` | netology_diplom/backend/views.py:187-276 | from an empty store, after any serial run, no two shops, products or parameters have one key, no user has two baskets, and no lookup can meet two rows; shops, categories and parameters only grow, and products are never renamed and go exactly by the calls that delete them |
| `Serial.ProductKeptExactlyWhenNotDeleted` | netology_diplom/backend/views.py:359-365 | over a serial run, each request stopped after any number of statements, a product stays if and only if no call gets as far as deleting it |
| `Machine.StepKeepsIntegrity` | netology_diplom/backend/models.py:107-276 | every statement, whoever issues it, keeps every foreign key, uniqueness rule and range |
| `Interleaving.IntegrityUnderInterleaving` | netology_diplom/backend/models.py:112-276 | so does every interleaving of requests and tasks, any of them killed midway |
| `Interleaving.ShopsBelongToShopUsers` | netology_diplom/backend/views.py:43-49 | in every reachable state each shop belongs to a user of type shop, and its owner and name never change afterwards |
| `Interleaving.ImportTaskTouchesOwnShop` | netology_diplom/backend/tasks.py:25-48 | whatever runs beside it, an import task changes ProductInfo rows, parameter values, category links and order lines only of the shop of the user it serves |
| `Interleaving.CategoryNamesNeverChange` | netology_diplom/backend/tasks.py:37-39 | under any interleaving a category stays and keeps its name, although every import writes it again |
| `Interleaving.PlacedNeverBasketAgain` | netology_diplom/backend/views.py:184-188 | under any interleaving a placed order never goes back to being a basket |
| `SerialPlay.SerialRunIsInterleaved` | netology_diplom/backend/tasks.py:15-66 | every serial run, each of its requests finished, failed or killed midway, is one of the interleavings, imports through the queue |
| `SerialPlay.KilledDoesNothing` | netology_diplom/backend/tasks.py:15-66 | a request that was killed does nothing more and disturbs no other |
| `Races.SecondBasketExactlyWhenStale` | netology_diplom/backend/views.py:232 | a step gives a user a second basket if and only if it makes one on a lookup that found none, for a user who has one by now |
| `KeyRaces.OneBasketExactlyWithoutStaleOpens` | netology_diplom/backend/views.py:232 | over any interleaved run, each user has at most one basket all along if and only if no such step occurs |
| `Races.RaceMakesTwoBaskets` | netology_diplom/backend/views.py:232 | any two overlapping basket requests of a user without a basket can make two, after which every basket request of that user fails and changes nothing |
| `Races.EmptyStoreReachesTwoBaskets` | netology_diplom/backend/views.py:232 | a schedule that reaches this from the empty store |
| `KeyRaces.KeyRepeatsExactlyWhenStale` | netology_diplom/backend/tasks.py:26-57 | a step gives two shops, products, parameters or baskets one key if and only if it inserts on a lookup that found none, when there is one by now |
| `KeyRaces.KeysUniqueExactlyWithoutStaleInserts` | netology_diplom/backend/tasks.py:26-57 | over any interleaved run, keys of a kind stay unique all along if and only if no such step occurs |
| `KeyRaces.EmptyStoreReachesTwoShops` | netology_diplom/backend/tasks.py:25-29 | two imports of different users with one new shop name can make two shops of it, from the empty store on |
| `KeyRaces.EmptyStoreReachesTwoProducts` | netology_diplom/backend/tasks.py:44 | two imports of different shops that offer one new product first can make two products of it, from the empty store on |
| `KeyRaces.RaceMakesTwoParameters` | netology_diplom/backend/tasks.py:57 | two imports about to look up one new parameter name can make two parameters of it |
| `KeyRaces.RepeatedKeyBlocksImports` | netology_diplom/backend/tasks.py:26-57 | no import succeeds that names a shop, lists a good or gives a parameter whose key two rows hold |
| `Races.LinesChangeExactlyWhenStale` | netology_diplom/backend/views.py:232-278 | a step adds, changes or takes a line of a placed order, other than by a cascade, if and only if its request still takes that order for its basket and the statement reaches a line |
| `Races.LinesHeldExactlyWithoutStaleLines` | netology_diplom/backend/views.py:232-278 | over any interleaved run, an order keeps its lines while it is placed if and only if no such step occurs |
| `Races.RaceGrowsPlacedOrder` | netology_diplom/backend/views.py:184-239 | a schedule in which a line sent together with checkout lands in the placed order |
| `Returns.OrderReturnsExactlyWhenStale` | netology_diplom/backend/views.py:184-188 | a step brings a deleted order back if and only if it saves the order on a load from before its deletion, for a stored user and contact |
| `Returns.ReturnedOrderIsEmpty` | netology_diplom/backend/views.py:184-188 | the order that comes back is placed and has no lines |
| `Returns.GoneExactlyWithoutStaleSaves` | netology_diplom/backend/views.py:184-188 | over any interleaved run, a deleted order never comes back if and only if no such step occurs |
| `Returns.RaceReturnsOrder` | netology_diplom/backend/views.py:105-188 | placing an order again while deleting the contact it refers to can delete it with its lines and bring it back without them |
| `Returns.EmptyStoreReachesReturn` | netology_diplom/backend/views.py:105-188 | a schedule that reaches this from the empty store |
| `Mail.SendNewOrderEmail` | netology_diplom/backend/tasks.py:69-92 | the customer is told first, then exactly the addresses of the owners of the shops recorded in the order's lines, each once; an unknown user stops it before any mail, an unknown order after the first |
| `Mail.AddressesAreOfRecordedOwners` | netology_diplom/backend/tasks.py:83 | an address is among the shop addresses if and only if it is that of the owner of the shop some line of the order records |
| `Mail.OneAddressPerShop` | netology_diplom/backend/tasks.py:83 | there are as many shop addresses as shops recorded in the order's lines |
| `Mail.ShopsToldAreShopsListed` | netology_diplom/backend/views.py:331-332 | when each line records the shop that sells its product, the shops told are exactly those that are shown the order |
| `IdList.IdListRoundTrip` | netology_diplom/backend/views.py:105 | any list of numbers written in decimal and joined by commas is read back whole by the contact handler, and without its negative numbers by the basket handler |
| `IdTexts.ReadsExactly` | netology_diplom/backend/views.py:105 | a piece reads as a number if and only if it is an optional sign and digits grouped by single underscores, with white space around, stated on characters |
| `IdTexts.WhiteSpaceIsIgnored` | netology_diplom/backend/views.py:105 | white space around any text makes no difference, whether it reads or not |
| `IdTexts.SignsRead` | netology_diplom/backend/views.py:105 | a leading plus makes no difference and a minus gives the opposite number |
| `IdTexts.UnderscoreIsIgnored` | netology_diplom/backend/views.py:105 | an underscore between two groups makes no difference |
| `IdTexts.DigitsReadInBaseTen` | netology_diplom/backend/views.py:105 | digits read in base ten, each for its place among the ten digits |
| `IdTexts.SplitFindsParts` | netology_diplom/backend/views.py:105 | splitting at commas gives comma-free pieces that join to the text |
| `IdTexts.StrictReadsExactly` | netology_diplom/backend/views.py:105 | the contact reader reads a list if and only if each piece reads, and gives their numbers in order |
| `IdTexts.LenientReadsExactly` | netology_diplom/backend/views.py:277 | the basket reader keeps a piece if and only if all its characters are digits |
| `IdTexts.PaddedListRoundTrip` | netology_diplom/backend/views.py:105 | any list of numbers in decimal, each padded with white space in any way, joined by commas, is read back by the contact reader |
| `IdList.LenientHomomorphism` | netology_diplom/backend/views.py:277 | the basket reader turns joining by a comma into concatenation, for any two texts |
| `IdList.ReadersAgreeExactlyOnDigits` | netology_diplom/backend/views.py:277 | both readers agree on a text if and only if all its pieces are digits |

## Left out

- HTTP, authentication, tokens, throttling, pagination: the caller's user id is an input, and so is the user's type.
- Reading files, YAML and JSON: programs start from a parsed document or list. A basket body that parses to something
  other than a list is not modelled (it fails after the basket was opened).
- Sending mail and the Celery transport: only the queue of imports and the list of recipients remain.
- Avatars, thumbnails, admin classes, social login: files and rows no result here speaks of.
- Product images: the upload itself. Deleting a product through the same endpoint is modelled; creating one there always
  fails, because a product needs a category and the endpoint takes none.
- Saves that write back a row just read (image upload, `PartnerState.post`, `ContactView.put`): served alone the first two
  change no modelled column and the third only the contact, which it may also hand to another user. Overlapping a deletion
  of that row they would insert it again; that is not modelled.
- `ContactView` get and put, `PartnerState`, `CategoryView`, `ShopView`, filters and registration: single-branch
  reads and writes that would add only easy members. Of a new contact only the owner is modelled.
- `Shop.url`, `Shop.status`, `Order.dt` and the contact's address columns: nothing modelled reads them. Shop status
  does not block orders in the code.
- `ProductInfo.price`: stored by the import and part of the modelled listing, but no serializer shows it.
- Sums past the int4 range: totals are mathematical integers.
- Gaps in id sequences after refused inserts, and PostgreSQL's refusal of NUL characters.
- The 4300-digit limit of Python's `int`, and digits outside ASCII.
- Rows that appear between the reads and the deletes of one cascading delete: the delete is one statement here.
- Things the code does not promise and that are not claimed: that a line's own shop is the one that sells its product,
  that stock is reserved, that an order's contact belongs to its user, and a full catalogue replacement under two
  overlapping imports of the same shop.

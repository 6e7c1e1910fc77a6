# The Watcher LARP marketplace, modelled in Dafny

The system is a web client and a few edge functions for a live-action role-playing game. Players
sign in and create one active character. A character belongs to a guild and a branch. It holds
money in crowns and pennies (12 pennies to the crown), keeps an inventory, and may hold permits.
Characters list items on a marketplace, buy other players' items, and can be retired or
declared dead. A hosted database stores everything.

This project models the decision logic of that system:

- the session provider's navigation gate, and its lookup of the active character and permits
  (`SessionContext`);
- the inventory page: the permit flag, the grant-permit offer, the sale form's input clamps and
  guard chain, the form reset, adding pennies, and retirement and death (`CharacterInventory`);
- the branch-local marketplace: the four lookup maps built from the active characters, the
  category query, the same-branch filter, display-name enrichment and the buy guard
  (`LocalMarketplace`);
- the `replenish-shortsword` edge function's insert / restock / no-op rule over the
  `marketplace_items` table (`ReplenishShortsword`);
- the `add-shop-item` edge function's validation, and the loop that expands one request into
  `quantity` rows (`AddShopItem`);
- character creation: the guard chain, JavaScript's `trim`, and the inserted row
  (`CreateCharacter`);
- the deceased-characters page: the profile map and the owner-name join (`DeadCharacters`);
- the blacksmith page's four-way access gate (`Blacksmith`).

Shared modules:

- `Js` holds JavaScript and database-client conventions: nullable values, truthiness, `||`
  fallbacks, `Map.get`, `{ data, error }` replies, the "no rows" code `PGRST116`, and decimal
  rendering.
- `Lookup` models maps filled by `forEach(... map.set ...)`, where a later row overwrites an
  earlier one.
- `Http` holds edge-function responses.
- `Tables` holds the database rows.

Every database query, function invocation and procedure call is a parameter: the reply it
returns, or the error it reports. State that a page or the provider changes step by step lives
in a class with `modifies` clauses. The pure rules are functions, and lemmas state what they
promise. Loops that fill maps or arrays are methods proved against those functions.

## Model

| member | source | states |
|---|---|---|
| SessionContext.Redirect | src/components/SessionContextProvider.tsx:113-136 | The gate navigates only once loading is over, never to the path it is already on, and only to a path the router declares |
| SessionContext.RedirectFollowsAccessMachine | src/components/SessionContextProvider.tsx:113-136 | Once loading is over, the redirect effect agrees with a three-state access machine (anonymous, no character, with character): it stays exactly where that state may stay, and otherwise navigates to that state's landing path |
| SessionContext.LoadingNeverNavigates | src/components/SessionContextProvider.tsx:119 | While the session loads, the gate never navigates |
| SessionContext.AnonymousGoesToLogin | src/components/SessionContextProvider.tsx:131-134 | Without a session, the gate navigates exactly when the path is not `/login`, and then only to `/login` |
| SessionContext.NoCharacterGoesToCreation | src/components/SessionContextProvider.tsx:126-129 | With a session and no character, the gate navigates exactly when the path is not `/create-character`, and then only there |
| SessionContext.CharacterGoesHomeOutsideAllowList | src/components/SessionContextProvider.tsx:117-125 | With a session and a character, the gate navigates exactly when the path is outside the eight-path allow-list, and then only to `/home` |
| SessionContext.LoginAndCreationLeadHome | src/components/SessionContextProvider.tsx:115-125 | A user with a session and a character on `/login` or `/create-character` is sent to `/home` |
| SessionContext.RedirectTargetIsFixedPoint | src/components/SessionContextProvider.tsx:113-136 | Re-running the gate on any redirect target, with the same inputs, does not navigate again |
| SessionContext.GateTargetsAreRoutes | src/App.tsx:33-42 | Every landing path and every allowed path is a route the router declares |
| SessionContext.PermitTypes | src/components/SessionContextProvider.tsx:71 | The permit list has one permit type per returned row, in the returned order |
| SessionContext.NoRowsIsAbsence | src/components/SessionContextProvider.tsx:56-60 | A `PGRST116` error, or no row at all, means no character: no permits and no error shown |
| SessionContext.OtherErrorsReset | src/components/SessionContextProvider.tsx:75-79 | Any other error of the character query, or an error of the permits query, resets the character to null and the permits to [], and shows an error |
| SessionContext.FoundCharacterPermits | src/components/SessionContextProvider.tsx:60-71 | A found character is stored with its permit types in returned order; a null permit list gives [] |
| SessionContext.CharacterLookup | src/components/SessionContextProvider.tsx:47-80 | Whatever the replies, permits are never held without a character, and no error is shown beside one. A character held is the one the query returned, from a query that did not fail |
| SessionContext.SessionProvider.constructor | src/components/SessionContextProvider.tsx:39-42 | No session, no character, no permits, and loading |
| SessionContext.SessionProvider.FetchCharacterData | src/components/SessionContextProvider.tsx:47-80 | The character and permits cells, and the error shown, are exactly the lookup outcome `CharacterLookup` of the two replies |
| SessionContext.SessionProvider.OnAuthStateChange | src/components/SessionContextProvider.tsx:99-108 | Stores the session and ends loading. With a user id the cells hold the lookup outcome; without one they are null and []. Afterwards the provider's gate, on every path, is the redirect effect for a finished load with that session and the stored character |
| SessionContext.SessionProvider.HandleAuthAndCharacterCheck | src/components/SessionContextProvider.tsx:83-95 | The initial check ends in the same state as the listener, for the initial session, and the gate follows those cells in the same way |
| CharacterInventory.HasBlacksmithPermit | src/pages/CharacterInventory.tsx:119 | The permit flag is true exactly when some permit row has type `blacksmith` |
| CharacterInventory.GrantOfferedIff | src/pages/CharacterInventory.tsx:378 | The grant button is offered exactly when the guild is `blacksmith` and no permit row is of that type |
| CharacterInventory.GrantPermitRow | src/pages/CharacterInventory.tsx:282-291 | A permit row is inserted exactly when a character with an id is present, and it carries that id and type `blacksmith` |
| CharacterInventory.ClampPrice | src/pages/CharacterInventory.tsx:487-501 | The crowns and pennies inputs never go below 0. A non-negative number is kept; a negative number or NaN becomes 0. Pennies is not capped at 11 |
| CharacterInventory.ClampQuantity | src/pages/CharacterInventory.tsx:530 | The quantity input always lands in [1, max(1, owned)]. A number in [1, owned] is kept; a number above a positive owned quantity becomes that quantity; NaN and numbers below 1 become 1 |
| CharacterInventory.CheckSale | src/pages/CharacterInventory.tsx:224-249 | An accepted sale is for the selected item, at a price with crowns ≥ 0, 0 ≤ pennies < 12 and not (0, 0), with a non-empty category and 1 ≤ quantity ≤ owned. The quantity error names the owned quantity |
| CharacterInventory.SaleAcceptedIff | src/pages/CharacterInventory.tsx:225-260 | A sale is submitted exactly when item and character are present, crowns and pennies ≥ 0, the price is not (0, 0), pennies < 12, the category is non-empty, and 1 ≤ quantity ≤ owned. The request carries the form's values |
| CharacterInventory.SaleErrorIsFirstFailingGuard | src/pages/CharacterInventory.tsx:225-249 | Each error is reported exactly when every earlier guard passed and its own failed |
| CharacterInventory.ClampedPricesAreNeverNegative | src/pages/CharacterInventory.tsx:487-501 | Prices from the inputs never trip the negative-price guard. Typed pennies of 12 or more reach the guard and are rejected there |
| CharacterInventory.AddedPenniesDoNotCarry | src/pages/CharacterInventory.tsx:201-205 | Adding pennies leaves crowns unchanged and pennies + 10, with no base-12 carry: from 2 pennies up the result is 12 or more |
| CharacterInventory.InventoryPage.constructor | src/pages/CharacterInventory.tsx:63-75 | The page's initial state: loading, no character, an empty form with category `misc` and quantity 1 |
| CharacterInventory.InventoryPage.FetchCharacterAndItems | src/pages/CharacterInventory.tsx:78-131 | Without a user nothing changes and nothing is shown. A failed character query changes nothing and shows its error. Otherwise the character is stored. With no character, items and permits are [] and the flag is false. With one: an items error keeps items, permits and flag and shows that error; a permits error stores the items, keeps permits and flag and shows that error; otherwise items and permits are the replies and the flag follows the permits. Every error carries the "Error fetching character or items: " prefix. Loading always ends |
| CharacterInventory.InventoryPage.SetSellCrowns | src/pages/CharacterInventory.tsx:487 | The crowns cell becomes the clamped input and stays non-negative |
| CharacterInventory.InventoryPage.SetSellPennies | src/pages/CharacterInventory.tsx:501 | The pennies cell becomes the clamped input and stays non-negative |
| CharacterInventory.InventoryPage.SetSellQuantity | src/pages/CharacterInventory.tsx:530 | The quantity cell becomes the clamped input for the selected item and stays at least 1 |
| CharacterInventory.InventoryPage.SetSellCategory | src/pages/CharacterInventory.tsx:511 | The category cell becomes the selected category; the other cells keep their invariants |
| CharacterInventory.InventoryPage.OpenSellDialog | src/pages/CharacterInventory.tsx:453-457 | Selects the item, resets the quantity to 1 and opens the dialog |
| CharacterInventory.InventoryPage.SellItem | src/pages/CharacterInventory.tsx:224-280 | The negative-price guard never fires, since the inputs keep prices non-negative. Nothing is invoked unless the guards pass, and then the first failing guard's message is shown and the selling flag is untouched. A successful sale resets the form to no item, 0 crowns, 0 pennies, `misc` and quantity 1, and closes the dialog. A failed invocation leaves the form as it was |
| CharacterInventory.InventoryPage.AddPennies | src/pages/CharacterInventory.tsx:183-222 | Without a character nothing is read or written. A read error, a missing row or an update error leaves table and character as they were and shows "Failed to add pennies: " with that error's message. An update the row's policy refuses writes nothing and shows nothing. Otherwise the table row gets ten more pennies, crowns untouched, and the page shows the written row. The updating flag always ends false |
| CharacterInventory.InventoryPage.EndCharacter | src/pages/CharacterInventory.tsx:137-181 | Retirement or death without a character reports an error and calls no procedure. Otherwise the matching procedure is called with the character's id; on success the character is cleared and the user sent to `/create-character` |
| Lookup.GetLastWins | src/pages/LocalMarketplace.tsx:93-98 | A key looked up in a map filled row by row is missing exactly when no row has it. Otherwise it holds the value of the last row with that key |
| LocalMarketplace.BuildLookupMaps | src/pages/LocalMarketplace.tsx:88-98 | The loop fills the four maps (character id and user id, each to branch and to name) exactly as the last-write-wins fold of the active characters |
| LocalMarketplace.IndexLastWins | src/pages/LocalMarketplace.tsx:93-98 | When several active characters share a key, the last one visited wins. A key no active character carries is absent |
| LocalMarketplace.CategoryQueryIsExact | src/pages/LocalMarketplace.tsx:101-109 | With a category other than `all`, a row is fetched exactly when it has that category, in table order |
| LocalMarketplace.BranchFilterKeepsSameBranch | src/pages/LocalMarketplace.tsx:116-121 | A listing is kept exactly when its seller's branch equals the viewer's; the kept listings are an order-preserving subsequence of the fetched ones. The branch is looked up by `seller_character_id` when present, else by `seller_id` |
| LocalMarketplace.UnknownSellersAreHidden | src/pages/LocalMarketplace.tsx:116-121 | A listing whose seller is not an active character is never kept; shop listings with both seller references null are among these |
| LocalMarketplace.EnrichmentFallbacks | src/pages/LocalMarketplace.tsx:123-127 | Enrichment keeps length, order and every field. The seller is named through `seller_character_id` when truthy, else through `seller_id`; the crafter through `crafter_user_id`. A found, non-empty name is shown as it is. A null or unknown reference, or an empty name, gives `Unknown Adventurer` or `Unknown Crafter`. Neither name is ever empty |
| LocalMarketplace.ShownListingsAreLocal | src/pages/LocalMarketplace.tsx:101-127 | Every listing shown is in the table, has the selected category unless `all`, and was sold by an active character of the viewer's branch |
| LocalMarketplace.ShownSellerIsBranchCharacter | src/pages/LocalMarketplace.tsx:93-127 | Every listing shown has a seller reference and carries the name of the active character with that reference that was visited last (no later active character carries it), and that character is of the viewer's branch. The name falls back to `Unknown Adventurer` only when that character's name is empty |
| LocalMarketplace.OwnListingsCannotBeBought | src/pages/LocalMarketplace.tsx:279 | The buy button is disabled exactly while buying or on the viewer's own listing |
| LocalMarketplace.LocalMarketplacePage.constructor | src/pages/LocalMarketplace.tsx:47-51 | No items, loading, no character, not buying, category `all` |
| LocalMarketplace.LocalMarketplacePage.FetchLocalMarketItems | src/pages/LocalMarketplace.tsx:53-136 | Without a user nothing changes and nothing is shown. A failed viewer lookup changes nothing and shows its error. Without a character the items stay and nothing is shown. An active-characters or items error keeps the items and shows that error. Every error carries the "Error loading local marketplace: " prefix. Otherwise the items are the enriched, same-branch listings of the selected category. Loading always ends |
| LocalMarketplace.LocalMarketplacePage.SetSelectedCategory | src/pages/LocalMarketplace.tsx:232 | The category cell becomes the selected category, which the next fetch reads |
| LocalMarketplace.LocalMarketplacePage.BuyItem | src/pages/LocalMarketplace.tsx:142-168 | Without an active character nothing is invoked and "You need an active character to buy items." is shown. Otherwise `buy-item` is invoked with the listing's id and the character's id; a failure shows "Failed to buy item: " with its message, and success shows nothing |
| ReplenishShortsword.FirstMatch | supabase/functions/replenish-shortsword/index.ts:31-46 | Finds the first row with name `Shortsword`, 4 crowns, 6 pennies, category `weapons` and a null seller, or reports that no row matches |
| ReplenishShortsword.NoMatchInsertsOne | supabase/functions/replenish-shortsword/index.ts:64-78 | With no match, exactly one row is appended: the Shortsword at that price, with the fixed description and quantity 1 |
| ReplenishShortsword.SoldOutMatchRestocked | supabase/functions/replenish-shortsword/index.ts:48-55 | A first match with quantity 0 gets quantity 1; no other field or row changes |
| ReplenishShortsword.StockedMatchUnchanged | supabase/functions/replenish-shortsword/index.ts:61-63 | A first match with any other quantity leaves the table unchanged |
| ReplenishShortsword.OnlyFirstMatchTouched | supabase/functions/replenish-shortsword/index.ts:45-46 | Every existing row but the first match is kept as it was |
| ReplenishShortsword.ReplenishedHasStock | supabase/functions/replenish-shortsword/index.ts:45-84 | After a run the first match exists and is not sold out |
| ReplenishShortsword.ReplenishIsIdempotent | supabase/functions/replenish-shortsword/index.ts:45-84 | Running the function twice leaves the table as running it once |
| ReplenishShortsword.MarketplaceTable.Replenish | supabase/functions/replenish-shortsword/index.ts:31-97 | On success the table becomes the replenished table and the reply is 200 with the completion message. On a database error the table is unchanged and the reply is 500 with that error |
| AddShopItem.PriceIsNotValidated | supabase/functions/add-shop-item/index.ts:23 | A zero price, and pennies of 12 or more, pass validation: crowns and pennies are only checked for being defined |
| AddShopItem.SuccessMessageNamesQuantityAndItem | supabase/functions/add-shop-item/index.ts:55 | The success message starts with the quantity's digits, which read back as the quantity, then a space and the item name |
| AddShopItem.HandleAddShopItem | supabase/functions/add-shop-item/index.ts:21-58 | The reply is 400 exactly when the name or category is falsy, crowns or pennies is undefined, or quantity is missing or ≤ 0; then nothing is inserted. Otherwise exactly `quantity` rows are built, each with the request's name, crowns, pennies and category and all three references null. The reply is 500 with the insert's error, or 200 with the success message |
| CreateCharacter.TrimStart | src/pages/CreateCharacter.tsx:25 | The result is the input after its longest whitespace prefix, and it does not start with whitespace |
| CreateCharacter.TrimEnd | src/pages/CreateCharacter.tsx:25 | The result is the input before its longest whitespace suffix, and it does not end with whitespace |
| CreateCharacter.TrimIsCoreSlice | src/pages/CreateCharacter.tsx:25 | `trim` gives the slice of the input between a whitespace prefix and a whitespace suffix; neither end of it is whitespace |
| CreateCharacter.TrimEmptyIffAllWhitespace | src/pages/CreateCharacter.tsx:25 | A name trims to the empty string exactly when it is all whitespace |
| CreateCharacter.TrimIsIdempotent | src/pages/CreateCharacter.tsx:25 | Trimming twice is trimming once |
| CreateCharacter.CreationAcceptedIff | src/pages/CreateCharacter.tsx:21-42 | Creation goes ahead exactly when a user id is present, the name is not all whitespace, and race and guild are chosen. The row then carries only the user id, the trimmed name, the race and the guild |
| CreateCharacter.CreationErrorIsFirstFailingGuard | src/pages/CreateCharacter.tsx:21-36 | The guards run in the order user, name, race, guild. Each error is reported exactly when the earlier guards pass and its own fails |
| CreateCharacter.TrimOfNameIsCore | src/pages/CreateCharacter.tsx:25 | A name that is not all whitespace trims to a non-empty slice of it, after a whitespace prefix and before a whitespace suffix, neither starting nor ending with whitespace |
| CreateCharacter.InsertedNameIsTrimmed | src/pages/CreateCharacter.tsx:42 | The inserted name is non-empty and neither starts nor ends with whitespace. It is the typed name with only a whitespace prefix and suffix removed |
| CreateCharacter.CreateCharacterPage.constructor | src/pages/CreateCharacter.tsx:12-15 | Empty fields, not loading |
| CreateCharacter.CreateCharacterPage.HandleCreateCharacter | src/pages/CreateCharacter.tsx:19-58 | A failed guard shows its message and inserts nothing. Otherwise the validated row is inserted and loading ends. An insert error is shown; a non-empty result navigates to `/character-inventory` |
| DeadCharacters.FullNameCases | src/pages/DeadCharacters.tsx:63 | The full name is the non-empty parts among first and last name, joined by one space. It is empty exactly when both parts are |
| DeadCharacters.BuildProfileMap | src/pages/DeadCharacters.tsx:61-65 | The loop fills the profile map as the last-write-wins fold of (id, full name or `Unknown User`) over the profiles |
| DeadCharacters.OwnerIsLastProfile | src/pages/DeadCharacters.tsx:61-70 | A user with no profile gets owner `Unknown User`. Otherwise the owner is the display name of the last profile with that id. The owner is never empty |
| DeadCharacters.EnrichmentKeepsCharacters | src/pages/DeadCharacters.tsx:68-71 | Enrichment keeps length, order and every character field; each owner name is non-empty, and `Unknown User` when no profile matches |
| DeadCharacters.DeadCharactersPage.constructor | src/pages/DeadCharacters.tsx:31-32 | Loading, with an empty list |
| DeadCharacters.DeadCharactersPage.FetchDeadCharacters | src/pages/DeadCharacters.tsx:35-79 | Without a user the list stays as it was. Any query error empties the list and is shown. Otherwise the list is the dead characters enriched with owner names. Loading always ends |
| Blacksmith.ViewConditions | src/pages/Blacksmith.tsx:11-59 | Loading wins over everything. Then no session gives "access denied". Then no character or no `blacksmith` permit gives "permit required". The shop is shown exactly when not loading, with a session, a character and the permit |
| Blacksmith.PermitListAgreesWithFlag | src/pages/Blacksmith.tsx:39 | `blacksmith` is among the provider's permit types exactly when the inventory page's permit flag holds for the same rows |
| Blacksmith.ShopFollowsLookup | src/pages/Blacksmith.tsx:9-59 | After an error-free lookup, the shop opens exactly when a character was found and one of its permit rows is a blacksmith permit |

## Left out

- Database, authentication and edge-function I/O is not executed. Each query, insert, update,
  procedure call and function invocation is a parameter: its reply, its error, or (for the
  pennies update) whether the row's update policy lets it through. Toasts are the
  `shownError` results; success toasts are not modelled.
- The database procedures `retire_character_and_move`, `kill_character_and_move`,
  `transfer_item_to_marketplace` and `transfer_item_from_marketplace` are not modelled. They
  live in the database, and the model only records which procedure is called with which
  argument.
- Base-12 purchase arithmetic is not modelled. No client or edge-function file performs it: it
  happens inside `transfer_item_from_marketplace`. The only base-12 rule in the code is the
  sale guard "pennies < 12".
- Pennies are meant to stay in [0, 11]: the sale guard asks the user to "convert 12 pennies to
  1 Crown" (src/pages/CharacterInventory.tsx:239). The code enforces this only in that guard,
  and the model follows the code:
  - the price inputs clamp only to ≥ 0 (`ClampPrice`);
  - adding pennies does no carry (`AddedPenniesDoNotCarry`);
  - `add-shop-item` accepts any defined pennies (`PriceIsNotValidated`).
- The `sell-item` and `buy-item` edge functions are thin parameter checks over the procedures
  above, so they are not modelled. `sell-item` does not read `quantity_to_sell`. So
  `SellRequest` records what the page sends, and the model does not claim the quantity
  reaches the server.
- JavaScript numbers are modelled as unbounded integers. `parseInt` results above 2^53 that
  lose precision (src/pages/CharacterInventory.tsx:487, 501, 530) and the floating-point add
  of `pennies + 10` (line 201) are not modelled.
- `generate-items` and the character generator are not modelled. They are driven by random
  numbers and floating-point floor.
- The getSession / listener race is not modelled: the initial session check and the
  authentication listener may interleave. `HandleAuthAndCharacterCheck` and
  `OnAuthStateChange` each model one completed run.
- The presentation pages are not modelled: home, the global marketplace, branch members (its
  filtering is a query), the recently dead, the item-generation button, the header and the
  index page. The router is used only as the set of declared paths.
- The build configuration is not modelled.
- Display formatting is not modelled: date formatting, capitalisation, and success-toast
  texts.
- The `listed_at` / `died_at` / `acquired_at` ordering of query results is not modelled. The
  database does it: the replies and tables are taken in the order the database returns them.
- CORS pre-flight (`OPTIONS`) handling of the edge functions is not modelled.
- AddShopItem.HandleAddShopItem: `quantity` is modelled as an integer or absent. A string or
  fractional quantity, which JavaScript would coerce in `<=` and in the loop bound, is not
  modelled. A JSON body that fails to parse (the catch-all 500) is not modelled either.
- ReplenishShortsword.MarketplaceTable.Replenish: the restock update addresses the first match
  by its position in the table rather than by its primary key. The id of an inserted row and
  its `listed_at` are parameters. The model assumes the select returns matches in table
  order.
- CharacterInventory.InventoryPage.AddPennies: it is modelled as one atomic read-modify-write
  of a table given as a map. Another writer between the read and the update (a lost update)
  is not modelled. The empty update result (no row handed back, no error) is modelled as the
  row's update policy refusing the write; a row deleted between the read and the update,
  which gives the same empty result, is not modelled.
- The re-fetch that follows a successful sale, permit grant, purchase or category change is not
  modelled as a chained call. Each fetch method models one load, from any state.
- CharacterInventory.GrantPermitRow: only the row is modelled. The insert's reply is not.
- LocalMarketplace.LocalMarketplacePage.FetchLocalMarketItems: the category filter is applied
  to the `table` parameter in place of the database.

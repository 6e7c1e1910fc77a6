/** The branch-local marketplace: lookup maps built from the active characters,
    the category query, the same-branch filter, display-name enrichment and the buy guard. */
module LocalMarketplace {
  import opened Js
  import opened Tables
  import opened Lookup

  const AllCategories := "all"
  const UnknownAdventurer := "Unknown Adventurer"
  const UnknownCrafter := "Unknown Crafter"

  // ---------------------------------------------------------------------------
  // The four lookup maps

  datatype KeyColumn = ById | ByUserId
  datatype ValueColumn = BranchOf | NameOf

  function KeyOf(c: Character, k: KeyColumn): string {
    match k
    case ById => c.id
    case ByUserId => c.userId
  }

  function ValueOf(c: Character, v: ValueColumn): string {
    match v
    case BranchOf => c.branch
    case NameOf => c.name
  }

  /** The `map.set(key, value)` calls one map receives, in the order the rows are visited. */
  function Entries(chars: seq<Character>, k: KeyColumn, v: ValueColumn): (e: seq<(string, string)>)
    ensures |e| == |chars|
    ensures forall i :: 0 <= i < |chars| ==> e[i] == (KeyOf(chars[i], k), ValueOf(chars[i], v))
  {
    seq(|chars|, i requires 0 <= i < |chars| => (KeyOf(chars[i], k), ValueOf(chars[i], v)))
  }

  /** The map keyed by column `k` holding column `v`, as the loop leaves it. */
  function Index(chars: seq<Character>, k: KeyColumn, v: ValueColumn): map<string, string> {
    LastWins(Entries(chars, k, v))
  }

  /** The `forEach` over the active characters that fills the four maps. */
  method BuildLookupMaps(chars: seq<Character>)
    returns (idToBranch: map<string, string>, userIdToBranch: map<string, string>,
             idToName: map<string, string>, userIdToName: map<string, string>)
    ensures idToBranch == Index(chars, ById, BranchOf)
    ensures userIdToBranch == Index(chars, ByUserId, BranchOf)
    ensures idToName == Index(chars, ById, NameOf)
    ensures userIdToName == Index(chars, ByUserId, NameOf)
  {
    idToBranch, userIdToBranch, idToName, userIdToName := map[], map[], map[], map[];
    var i := 0;
    while i < |chars|
      invariant 0 <= i <= |chars|
      invariant idToBranch == LastWins(Entries(chars, ById, BranchOf)[..i])
      invariant userIdToBranch == LastWins(Entries(chars, ByUserId, BranchOf)[..i])
      invariant idToName == LastWins(Entries(chars, ById, NameOf)[..i])
      invariant userIdToName == LastWins(Entries(chars, ByUserId, NameOf)[..i])
    {
      var c := chars[i];
      ExtendEntries(chars, ById, BranchOf, i);
      ExtendEntries(chars, ByUserId, BranchOf, i);
      ExtendEntries(chars, ById, NameOf, i);
      ExtendEntries(chars, ByUserId, NameOf, i);
      idToBranch := idToBranch[c.id := c.branch];
      userIdToBranch := userIdToBranch[c.userId := c.branch];
      idToName := idToName[c.id := c.name];
      userIdToName := userIdToName[c.userId := c.name];
      i := i + 1;
    }
    assert Entries(chars, ById, BranchOf)[..i] == Entries(chars, ById, BranchOf);
    assert Entries(chars, ByUserId, BranchOf)[..i] == Entries(chars, ByUserId, BranchOf);
    assert Entries(chars, ById, NameOf)[..i] == Entries(chars, ById, NameOf);
    assert Entries(chars, ByUserId, NameOf)[..i] == Entries(chars, ByUserId, NameOf);
  }

  /** One more visited row is one more `set` on the map. */
  lemma ExtendEntries(chars: seq<Character>, k: KeyColumn, v: ValueColumn, i: nat)
    requires i < |chars|
    ensures LastWins(Entries(chars, k, v)[..i + 1])
            == LastWins(Entries(chars, k, v)[..i])[KeyOf(chars[i], k) := ValueOf(chars[i], v)]
  {
    var e := Entries(chars, k, v);
    assert e[..i + 1][..i] == e[..i];
  }

  /** When several active characters share a key, the last one visited wins;
      a key no active character carries is absent. */
  lemma IndexLastWins(chars: seq<Character>, k: KeyColumn, v: ValueColumn, key: string)
    ensures Get(Index(chars, k, v), key).None? <==> forall i :: 0 <= i < |chars| ==> KeyOf(chars[i], k) != key
    ensures forall i :: 0 <= i < |chars| && KeyOf(chars[i], k) == key
              && (forall j :: i < j < |chars| ==> KeyOf(chars[j], k) != key)
              ==> Get(Index(chars, k, v), key) == Some(ValueOf(chars[i], v))
  {
    var e := Entries(chars, k, v);
    GetLastWins(e, key);
    forall i | 0 <= i < |chars| && KeyOf(chars[i], k) == key && (forall j :: i < j < |chars| ==> KeyOf(chars[j], k) != key)
      ensures Get(Index(chars, k, v), key) == Some(ValueOf(chars[i], v))
    {
      assert e[i].0 == key;
      forall j | i < j < |e| ensures e[j].0 != key { assert e[j].0 == KeyOf(chars[j], k); }
    }
    if forall i :: 0 <= i < |chars| ==> KeyOf(chars[i], k) != key {
      forall i | 0 <= i < |e| ensures e[i].0 != key { assert e[i].0 == KeyOf(chars[i], k); }
    }
  }

  // ---------------------------------------------------------------------------
  // The category query

  /** The rows the `marketplace_items` query returns: all of them, or only the selected category. */
  function FetchedListings(table: seq<MarketplaceItem>, selectedCategory: string): seq<MarketplaceItem> {
    if selectedCategory == AllCategories then table
    else if table == [] then []
    else (if table[0].category == selectedCategory then [table[0]] else [])
         + FetchedListings(table[1..], selectedCategory)
  }

  /** With a category other than "all", exactly that category's rows are fetched, in table order. */
  lemma {:induction false} CategoryQueryIsExact(table: seq<MarketplaceItem>, selectedCategory: string, x: MarketplaceItem)
    requires selectedCategory != AllCategories
    ensures x in FetchedListings(table, selectedCategory) <==> x in table && x.category == selectedCategory
    ensures IsSubsequence(FetchedListings(table, selectedCategory), table)
  {
    if table != [] {
      CategoryQueryIsExact(table[1..], selectedCategory, x);
      assert table == [table[0]] + table[1..];
      var rest := FetchedListings(table[1..], selectedCategory);
      if table[0].category == selectedCategory {
        assert ([table[0]] + rest)[1..] == rest;
      } else {
        assert [] + rest == rest;
        assert IsSubsequence(rest, table);
      }
    }
  }

  // ---------------------------------------------------------------------------
  // The same-branch filter

  /** `a` is `b` with some elements dropped, order kept. */
  predicate IsSubsequence<T(==)>(a: seq<T>, b: seq<T>)
    decreases |b|
  {
    if a == [] then true
    else if b == [] then false
    else (a[0] == b[0] && IsSubsequence(a[1..], b[1..])) || IsSubsequence(a, b[1..])
  }

  /** The seller's branch: looked up by `seller_character_id` when it is truthy, else by `seller_id`. */
  function SellerBranch(item: MarketplaceItem, idToBranch: map<string, string>, userIdToBranch: map<string, string>): Option<string> {
    if Truthy(item.sellerCharacterId) then Get(idToBranch, item.sellerCharacterId.value)
    else if item.sellerId.Some? then Get(userIdToBranch, item.sellerId.value)
    else None
  }

  predicate SameBranch(item: MarketplaceItem, idToBranch: map<string, string>, userIdToBranch: map<string, string>, branch: string) {
    SellerBranch(item, idToBranch, userIdToBranch) == Some(branch)
  }

  function BranchFilter(items: seq<MarketplaceItem>, idToBranch: map<string, string>,
                        userIdToBranch: map<string, string>, branch: string): seq<MarketplaceItem>
  {
    if items == [] then []
    else (if SameBranch(items[0], idToBranch, userIdToBranch, branch) then [items[0]] else [])
         + BranchFilter(items[1..], idToBranch, userIdToBranch, branch)
  }

  /** A listing is kept exactly when its seller's branch is the viewer's; the kept listings
      keep their order. */
  lemma {:induction false} BranchFilterKeepsSameBranch(items: seq<MarketplaceItem>, idToBranch: map<string, string>,
                                                       userIdToBranch: map<string, string>, branch: string, x: MarketplaceItem)
    ensures x in BranchFilter(items, idToBranch, userIdToBranch, branch)
            <==> x in items && SameBranch(x, idToBranch, userIdToBranch, branch)
    ensures IsSubsequence(BranchFilter(items, idToBranch, userIdToBranch, branch), items)
  {
    if items != [] {
      BranchFilterKeepsSameBranch(items[1..], idToBranch, userIdToBranch, branch, x);
      assert items == [items[0]] + items[1..];
      var rest := BranchFilter(items[1..], idToBranch, userIdToBranch, branch);
      if SameBranch(items[0], idToBranch, userIdToBranch, branch) {
        assert ([items[0]] + rest)[1..] == rest;
      } else {
        assert [] + rest == rest;
        assert IsSubsequence(rest, items);
      }
    }
  }

  /** Some active character is the listing's seller, by the same reference the filter uses. */
  predicate SellerIsActive(item: MarketplaceItem, chars: seq<Character>) {
    if Truthy(item.sellerCharacterId) then exists i :: 0 <= i < |chars| && chars[i].id == item.sellerCharacterId.value
    else item.sellerId.Some? && exists i :: 0 <= i < |chars| && chars[i].userId == item.sellerId.value
  }

  /** Listings whose seller is not an active character, NPC listings with both seller
      references null among them, are never shown. */
  lemma UnknownSellersAreHidden(chars: seq<Character>, items: seq<MarketplaceItem>, branch: string, x: MarketplaceItem)
    requires !SellerIsActive(x, chars)
    ensures x !in BranchFilter(items, Index(chars, ById, BranchOf), Index(chars, ByUserId, BranchOf), branch)
  {
    BranchFilterKeepsSameBranch(items, Index(chars, ById, BranchOf), Index(chars, ByUserId, BranchOf), branch, x);
    if Truthy(x.sellerCharacterId) {
      IndexLastWins(chars, ById, BranchOf, x.sellerCharacterId.value);
    } else if x.sellerId.Some? {
      IndexLastWins(chars, ByUserId, BranchOf, x.sellerId.value);
    }
  }

  // ---------------------------------------------------------------------------
  // Display names

  /** A listing with the two display names the page adds; `item` keeps every original field. */
  datatype EnrichedListing = EnrichedListing(item: MarketplaceItem, sellerCharacterName: string, crafterCharacterName: string)

  function SellerName(item: MarketplaceItem, idToName: map<string, string>, userIdToName: map<string, string>): string {
    if Truthy(item.sellerCharacterId) then OrElse(Get(idToName, item.sellerCharacterId.value), UnknownAdventurer)
    else OrElse(if item.sellerId.Some? then Get(userIdToName, item.sellerId.value) else None, UnknownAdventurer)
  }

  function CrafterName(item: MarketplaceItem, userIdToName: map<string, string>): string {
    if Truthy(item.crafterUserId) then OrElse(Get(userIdToName, item.crafterUserId.value), UnknownCrafter)
    else UnknownCrafter
  }

  function Enrich(items: seq<MarketplaceItem>, idToName: map<string, string>, userIdToName: map<string, string>): seq<EnrichedListing> {
    seq(|items|, i requires 0 <= i < |items| =>
      EnrichedListing(items[i], SellerName(items[i], idToName, userIdToName), CrafterName(items[i], userIdToName)))
  }

  /** Enrichment keeps length, order and every field. A seller is named through
      `seller_character_id` when that is truthy, else through `seller_id`; a crafter through
      `crafter_user_id`. A name found and non-empty is shown as it is; a reference that is null
      or unknown, or a name that is empty, gives "Unknown Adventurer" or "Unknown Crafter". */
  lemma EnrichmentFallbacks(items: seq<MarketplaceItem>, idToName: map<string, string>, userIdToName: map<string, string>)
    ensures var r := Enrich(items, idToName, userIdToName);
            && |r| == |items|
            && (forall i :: 0 <= i < |items| ==> r[i].item == items[i])
            && (forall i :: 0 <= i < |items| ==> r[i].sellerCharacterName != "" && r[i].crafterCharacterName != "")
    ensures var r := Enrich(items, idToName, userIdToName);
            forall i :: 0 <= i < |items| && Truthy(items[i].sellerCharacterId) ==>
              var key := items[i].sellerCharacterId.value;
              && (key !in idToName ==> r[i].sellerCharacterName == UnknownAdventurer)
              && (key in idToName && idToName[key] == "" ==> r[i].sellerCharacterName == UnknownAdventurer)
              && (key in idToName && idToName[key] != "" ==> r[i].sellerCharacterName == idToName[key])
    ensures var r := Enrich(items, idToName, userIdToName);
            forall i :: 0 <= i < |items| && !Truthy(items[i].sellerCharacterId) ==>
              && (items[i].sellerId.None? ==> r[i].sellerCharacterName == UnknownAdventurer)
              && (items[i].sellerId.Some? && items[i].sellerId.value !in userIdToName ==>
                      r[i].sellerCharacterName == UnknownAdventurer)
              && (items[i].sellerId.Some? && items[i].sellerId.value in userIdToName
                    && userIdToName[items[i].sellerId.value] == "" ==>
                      r[i].sellerCharacterName == UnknownAdventurer)
              && (items[i].sellerId.Some? && items[i].sellerId.value in userIdToName
                    && userIdToName[items[i].sellerId.value] != "" ==>
                      r[i].sellerCharacterName == userIdToName[items[i].sellerId.value])
    ensures var r := Enrich(items, idToName, userIdToName);
            forall i :: 0 <= i < |items| ==>
              && (!Truthy(items[i].crafterUserId) ==> r[i].crafterCharacterName == UnknownCrafter)
              && (Truthy(items[i].crafterUserId) && items[i].crafterUserId.value !in userIdToName ==>
                      r[i].crafterCharacterName == UnknownCrafter)
              && (Truthy(items[i].crafterUserId) && items[i].crafterUserId.value in userIdToName
                    && userIdToName[items[i].crafterUserId.value] == "" ==>
                      r[i].crafterCharacterName == UnknownCrafter)
              && (Truthy(items[i].crafterUserId) && items[i].crafterUserId.value in userIdToName
                    && userIdToName[items[i].crafterUserId.value] != "" ==>
                      r[i].crafterCharacterName == userIdToName[items[i].crafterUserId.value])
  {
  }

  // ---------------------------------------------------------------------------
  // The whole listing pipeline, and the page

  /** What the page shows for a viewer in `branch`, given the active characters and the table. */
  function LocalListings(chars: seq<Character>, table: seq<MarketplaceItem>, selectedCategory: string, branch: string): seq<EnrichedListing> {
    var kept := BranchFilter(FetchedListings(table, selectedCategory), Index(chars, ById, BranchOf), Index(chars, ByUserId, BranchOf), branch);
    Enrich(kept, Index(chars, ById, NameOf), Index(chars, ByUserId, NameOf))
  }

  /** Every listing shown is in the table, has the selected category (unless "all"), and was
      sold by an active character of the viewer's branch. */
  lemma ShownListingsAreLocal(chars: seq<Character>, table: seq<MarketplaceItem>, selectedCategory: string, branch: string, i: nat)
    requires i < |LocalListings(chars, table, selectedCategory, branch)|
    ensures var x := LocalListings(chars, table, selectedCategory, branch)[i].item;
            && x in table
            && (selectedCategory != AllCategories ==> x.category == selectedCategory)
            && SellerIsActive(x, chars)
            && SameBranch(x, Index(chars, ById, BranchOf), Index(chars, ByUserId, BranchOf), branch)
  {
    var fetched := FetchedListings(table, selectedCategory);
    var kept := BranchFilter(fetched, Index(chars, ById, BranchOf), Index(chars, ByUserId, BranchOf), branch);
    var x := kept[i];
    BranchFilterKeepsSameBranch(fetched, Index(chars, ById, BranchOf), Index(chars, ByUserId, BranchOf), branch, x);
    if selectedCategory != AllCategories {
      CategoryQueryIsExact(table, selectedCategory, x);
    }
    if !SellerIsActive(x, chars) {
      UnknownSellersAreHidden(chars, fetched, branch, x);
    }
  }

  /** The seller reference the filter and the name lookup both use. */
  function SellerKey(item: MarketplaceItem): (KeyColumn, string)
    requires Truthy(item.sellerCharacterId) || item.sellerId.Some?
  {
    if Truthy(item.sellerCharacterId) then (ById, item.sellerCharacterId.value) else (ByUserId, item.sellerId.value)
  }

  /** Among characters of which some carries `key` in column `k`, the last one that does. */
  lemma {:induction false} LastWithKey(chars: seq<Character>, k: KeyColumn, key: string) returns (j: nat)
    requires exists i :: 0 <= i < |chars| && KeyOf(chars[i], k) == key
    ensures j < |chars| && KeyOf(chars[j], k) == key
    ensures forall m :: j < m < |chars| ==> KeyOf(chars[m], k) != key
  {
    var n := |chars| - 1;
    if KeyOf(chars[n], k) == key {
      return n;
    }
    var i :| 0 <= i < |chars| && KeyOf(chars[i], k) == key;
    assert chars[..n][i] == chars[i];
    j := LastWithKey(chars[..n], k, key);
    assert chars[..n][j] == chars[j];
    forall m | j < m < |chars| ensures KeyOf(chars[m], k) != key {
      if m < n {
        assert chars[..n][m] == chars[m];
      }
    }
  }

  /** Every listing shown carries the name of one active character of the viewer's branch: the
      last one visited with the listing's seller reference, or "Unknown Adventurer" when that
      character's name is empty. */
  lemma ShownSellerIsBranchCharacter(chars: seq<Character>, table: seq<MarketplaceItem>, selectedCategory: string,
                                     branch: string, i: nat)
    requires i < |LocalListings(chars, table, selectedCategory, branch)|
    ensures var e := LocalListings(chars, table, selectedCategory, branch)[i];
            && (Truthy(e.item.sellerCharacterId) || e.item.sellerId.Some?)
            && exists j :: 0 <= j < |chars| && KeyOf(chars[j], SellerKey(e.item).0) == SellerKey(e.item).1
                 && (forall m :: j < m < |chars| ==> KeyOf(chars[m], SellerKey(e.item).0) != SellerKey(e.item).1)
                 && chars[j].branch == branch
                 && e.sellerCharacterName == OrElse(Some(chars[j].name), UnknownAdventurer)
  {
    var e := LocalListings(chars, table, selectedCategory, branch)[i];
    var kept := BranchFilter(FetchedListings(table, selectedCategory), Index(chars, ById, BranchOf), Index(chars, ByUserId, BranchOf), branch);
    assert e.item == kept[i];
    ShownListingsAreLocal(chars, table, selectedCategory, branch, i);
    var (k, key) := SellerKey(e.item);
    var j := LastWithKey(chars, k, key);
    IndexLastWins(chars, k, BranchOf, key);
    IndexLastWins(chars, k, NameOf, key);
    assert Get(Index(chars, k, NameOf), key) == Some(chars[j].name);
  }

  /** The buy button is disabled while buying and on the viewer's own listings. */
  predicate BuyDisabled(isBuying: bool, item: MarketplaceItem, sessionUserId: Option<string>) {
    isBuying || (item.sellerId.Some? && sessionUserId.Some? && item.sellerId.value == sessionUserId.value)
  }

  /** Only the viewer's own listings (and every listing while a purchase runs) are locked: a
      shop listing, whose seller is null, can be bought whenever no purchase is running. */
  lemma OwnListingsCannotBeBought(isBuying: bool, item: MarketplaceItem, sessionUserId: Option<string>)
    ensures BuyDisabled(isBuying, item, sessionUserId) <==> isBuying || (sessionUserId.Some? && item.sellerId == sessionUserId)
    ensures item.sellerId.None? ==> (BuyDisabled(isBuying, item, sessionUserId) <==> isBuying)
  {
  }

  /** The body sent to the `buy-item` function. */
  datatype BuyRequest = BuyRequest(marketplaceItemId: string, buyerCharacterId: string)

  const LoadErrorPrefix := "Error loading local marketplace: "

  class LocalMarketplacePage {
    var items: seq<EnrichedListing>
    var loading: bool
    var activeCharacter: Option<Character>
    var isBuying: bool
    var selectedCategory: string

    constructor ()
      ensures items == [] && loading && activeCharacter == None && !isBuying && selectedCategory == AllCategories
    {
      items := [];
      loading := true;
      activeCharacter := None;
      isBuying := false;
      selectedCategory := AllCategories;
    }

    /** `fetchLocalMarketItems`. The viewer's lookup and the active-characters query are replies;
        the items query runs against `table` and fails with `itemsError`. */
    method FetchLocalMarketItems(sessionUserId: Option<string>, viewerReply: Reply<Character>,
                                 activeReply: Reply<seq<Character>>, table: seq<MarketplaceItem>, itemsError: Option<DbError>)
      returns (shownError: Option<string>)
      modifies this`items, this`loading, this`activeCharacter
      ensures !loading
      ensures !Truthy(sessionUserId) || FailsOtherThanNoRows(viewerReply)
              ==> items == old(items) && activeCharacter == old(activeCharacter)
      ensures !Truthy(sessionUserId) ==> shownError == None
      ensures Truthy(sessionUserId) && FailsOtherThanNoRows(viewerReply)
              ==> shownError == Some(LoadErrorPrefix + viewerReply.error.value.message)
      ensures Truthy(sessionUserId) && !FailsOtherThanNoRows(viewerReply)
              ==> activeCharacter == viewerReply.data
      ensures Truthy(sessionUserId) && !FailsOtherThanNoRows(viewerReply) && viewerReply.data.None?
              ==> items == old(items) && shownError == None
      ensures Truthy(sessionUserId) && !FailsOtherThanNoRows(viewerReply) && viewerReply.data.Some?
              && (activeReply.error.Some? || itemsError.Some?)
              ==> items == old(items)
                  && shownError == Some(LoadErrorPrefix + (if activeReply.error.Some? then activeReply.error.value.message
                                                           else itemsError.value.message))
      ensures Truthy(sessionUserId) && !FailsOtherThanNoRows(viewerReply) && viewerReply.data.Some?
              && activeReply.error.None? && itemsError.None?
              ==> items == LocalListings(activeReply.data.GetOr([]), table, selectedCategory, viewerReply.data.value.branch)
                  && shownError == None
    {
      shownError := None;
      if !Truthy(sessionUserId) {
        loading := false;
        return;
      }
      if FailsOtherThanNoRows(viewerReply) {
        shownError := Some(LoadErrorPrefix + viewerReply.error.value.message);
        loading := false;
        return;
      }
      if viewerReply.data.None? {
        activeCharacter := None;
        loading := false;
        return;
      }
      var viewer := viewerReply.data.value;
      activeCharacter := Some(viewer);
      if activeReply.error.Some? {
        shownError := Some(LoadErrorPrefix + activeReply.error.value.message);
        loading := false;
        return;
      }
      var idToBranch, userIdToBranch, idToName, userIdToName := BuildLookupMaps(activeReply.data.GetOr([]));
      if itemsError.Some? {
        shownError := Some(LoadErrorPrefix + itemsError.value.message);
        loading := false;
        return;
      }
      var fetched := FetchedListings(table, selectedCategory);
      var kept := BranchFilter(fetched, idToBranch, userIdToBranch, viewer.branch);
      items := Enrich(kept, idToName, userIdToName);
      loading := false;
    }

    /** The category select's change handler. The page's effect then runs
        `FetchLocalMarketItems` again, which reads the new category. */
    method SetSelectedCategory(category: string)
      modifies this`selectedCategory
      ensures selectedCategory == category
    {
      selectedCategory := category;
    }

    /** `handleBuyItem`: without an active character nothing is invoked. */
    method BuyItem(item: MarketplaceItem, invokeError: Option<string>)
      returns (invoked: Option<BuyRequest>, shownError: Option<string>)
      modifies this`isBuying
      ensures activeCharacter.None?
              ==> invoked == None && isBuying == old(isBuying)
                  && shownError == Some("You need an active character to buy items.")
      ensures activeCharacter.Some?
              ==> invoked == Some(BuyRequest(item.id, activeCharacter.value.id)) && !isBuying
                  && (invokeError.None? ==> shownError.None?)
                  && (invokeError.Some? ==> shownError == Some("Failed to buy item: " + invokeError.value))
    {
      if activeCharacter.None? {
        invoked, shownError := None, Some("You need an active character to buy items.");
        return;
      }
      isBuying := true;
      invoked := Some(BuyRequest(item.id, activeCharacter.value.id));
      shownError := if invokeError.Some? then Some("Failed to buy item: " + invokeError.value) else None;
      isBuying := false;
    }
  }
}

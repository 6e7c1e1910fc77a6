/** The `replenish-shortsword` edge function: make sure the shop (NPC) Shortsword listing
    exists and is not sold out, inserting it or restocking it to 1 as needed. */
module ReplenishShortsword {
  import opened Js
  import opened Tables
  import opened Http

  const ItemName := "Shortsword"
  const ItemCrowns := 4
  const ItemPennies := 6
  const ItemCategory := "weapons"
  const ItemDescription := "A basic, well-balanced shortsword, ideal for new adventurers."
  const DoneMessage := "Shortsword replenishment check complete."

  /** The select's filter: name, price and category as above, and `seller_id` null. */
  predicate IsShopShortsword(row: MarketplaceItem) {
    && row.name == ItemName
    && row.crowns == ItemCrowns
    && row.pennies == ItemPennies
    && row.category == ItemCategory
    && row.sellerId.None?
  }

  /** The position of `existingItems[0]`, the first matching row in table order. */
  function FirstMatch(rows: seq<MarketplaceItem>): (k: Option<nat>)
    ensures k.None? <==> forall j :: 0 <= j < |rows| ==> !IsShopShortsword(rows[j])
    ensures k.Some? ==> k.value < |rows| && IsShopShortsword(rows[k.value])
                        && forall j :: 0 <= j < k.value ==> !IsShopShortsword(rows[j])
  {
    if rows == [] then None
    else if IsShopShortsword(rows[0]) then Some(0)
    else match FirstMatch(rows[1..])
      case None => None
      case Some(k) => Some(k + 1)
  }

  /** The row the function inserts; the id and listing time are the database's defaults. */
  function NewShortsword(id: string, listedAt: string): MarketplaceItem {
    MarketplaceItem(id, ItemName, Some(ItemDescription), ItemCrowns, ItemPennies, ItemCategory, 1, None, None, None, listedAt)
  }

  /** The table after a successful run. The update addresses the first match by its
      position: in the database it is addressed by `id`, the primary key. */
  function Replenished(rows: seq<MarketplaceItem>, newId: string, listedAt: string): seq<MarketplaceItem> {
    match FirstMatch(rows)
    case None => rows + [NewShortsword(newId, listedAt)]
    case Some(k) => if rows[k].quantity == 0 then rows[k := rows[k].(quantity := 1)] else rows
  }

  /** With no match exactly one row is appended: the Shortsword at 4 crowns 6 pennies, quantity 1. */
  lemma NoMatchInsertsOne(rows: seq<MarketplaceItem>, newId: string, listedAt: string)
    requires forall j :: 0 <= j < |rows| ==> !IsShopShortsword(rows[j])
    ensures var after := Replenished(rows, newId, listedAt);
            && |after| == |rows| + 1 && after[..|rows|] == rows
            && IsShopShortsword(after[|rows|])
            && after[|rows|].quantity == 1 && after[|rows|].description == Some(ItemDescription)
  {
  }

  /** A sold-out first match is restocked to 1; nothing else in the table changes. */
  lemma SoldOutMatchRestocked(rows: seq<MarketplaceItem>, newId: string, listedAt: string, k: nat)
    requires FirstMatch(rows) == Some(k) && rows[k].quantity == 0
    ensures var after := Replenished(rows, newId, listedAt);
            && |after| == |rows|
            && after[k] == rows[k].(quantity := 1)
            && forall j :: 0 <= j < |rows| && j != k ==> after[j] == rows[j]
  {
  }

  /** A first match with any other quantity leaves the table as it was. */
  lemma StockedMatchUnchanged(rows: seq<MarketplaceItem>, newId: string, listedAt: string, k: nat)
    requires FirstMatch(rows) == Some(k) && rows[k].quantity != 0
    ensures Replenished(rows, newId, listedAt) == rows
  {
  }

  /** Only the first matching row is ever touched: every existing row but that one is kept as it was. */
  lemma OnlyFirstMatchTouched(rows: seq<MarketplaceItem>, newId: string, listedAt: string, j: nat)
    requires j < |rows| && FirstMatch(rows) != Some(j)
    ensures j < |Replenished(rows, newId, listedAt)| && Replenished(rows, newId, listedAt)[j] == rows[j]
  {
  }

  /** After a run the first match exists and is not sold out. */
  lemma ReplenishedHasStock(rows: seq<MarketplaceItem>, newId: string, listedAt: string)
    ensures var after := Replenished(rows, newId, listedAt);
            FirstMatch(after).Some? && after[FirstMatch(after).value].quantity != 0
  {
    var after := Replenished(rows, newId, listedAt);
    match FirstMatch(rows)
    case None =>
      assert after[|rows|] == NewShortsword(newId, listedAt);
      assert FirstMatch(after) == Some(|rows|);
    case Some(k) =>
      forall j | 0 <= j <= k
        ensures IsShopShortsword(after[j]) == IsShopShortsword(rows[j])
      {
      }
      assert FirstMatch(after) == Some(k);
  }

  /** Running the function twice leaves the table as running it once. */
  lemma {:induction false} ReplenishIsIdempotent(rows: seq<MarketplaceItem>, newId: string, listedAt: string,
                                                 newId2: string, listedAt2: string)
    ensures Replenished(Replenished(rows, newId, listedAt), newId2, listedAt2) == Replenished(rows, newId, listedAt)
  {
    ReplenishedHasStock(rows, newId, listedAt);
  }

  class MarketplaceTable {
    var rows: seq<MarketplaceItem>

    constructor (initial: seq<MarketplaceItem>)
      ensures rows == initial
    {
      rows := initial;
    }

    /** One invocation. `newId` and `listedAt` are the database's defaults for an inserted row;
        `dbError` is the error a statement reports, if one does (each statement is atomic). */
    method Replenish(newId: string, listedAt: string, dbError: Option<DbError>) returns (response: Response)
      modifies this
      ensures dbError.None? ==> rows == Replenished(old(rows), newId, listedAt)
                                && response == Response(StatusOk, MessageBody(DoneMessage))
      ensures dbError.Some? ==> rows == old(rows)
                                && response == Response(StatusServerError, ErrorBody(dbError.value.message))
    {
      if dbError.Some? {
        return Response(StatusServerError, ErrorBody(dbError.value.message));
      }
      var existing := FirstMatch(rows);
      if existing.Some? {
        var k := existing.value;
        if rows[k].quantity == 0 {
          rows := rows[k := rows[k].(quantity := 1)];
        }
      } else {
        rows := rows + [NewShortsword(newId, listedAt)];
      }
      response := Response(StatusOk, MessageBody(DoneMessage));
    }
  }
}

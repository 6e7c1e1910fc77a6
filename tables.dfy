/** Rows of the hosted database's tables, as the pages and edge functions read them.
    Each page selects a subset of the columns; the model keeps one row type per table. */
module Tables {
  import opened Js

  /** A row of `characters`; `retiredAt == None` marks the user's active character. */
  datatype Character = Character(
    id: string,
    userId: string,
    name: string,
    race: string,
    guild: string,
    branch: string,
    createdAt: string,
    retiredAt: Option<string>,
    crowns: int,
    pennies: int,
    guildRank: string)

  /** A row of `character_permits`. */
  datatype CharacterPermit = CharacterPermit(id: string, characterId: string, permitType: string, createdAt: string)

  /** A row of `character_items`. */
  datatype CharacterItem = CharacterItem(
    id: string,
    characterId: string,
    itemName: string,
    quantity: int,
    acquiredAt: string,
    crafterUserId: Option<string>)

  /** A row of `marketplace_items`; both seller references null marks a shop (NPC) listing. */
  datatype MarketplaceItem = MarketplaceItem(
    id: string,
    name: string,
    description: Option<string>,
    crowns: int,
    pennies: int,
    category: string,
    quantity: int,
    sellerId: Option<string>,
    sellerCharacterId: Option<string>,
    crafterUserId: Option<string>,
    listedAt: string)
}

/** The character inventory page: its sale guards and form inputs, the "add 10 pennies"
    read-modify-write, the blacksmith-permit flag, retirement and death. */
module CharacterInventory {
  import opened Js
  import opened Tables
  import SessionContext

  const DefaultCategory := "misc"
  const BlacksmithPermit := "blacksmith"
  const BlacksmithGuild := "blacksmith"

  /** `character?.id`: the character's id when it is truthy. */
  function ActiveId(c: Option<Character>): Option<string> {
    if c.Some? && c.value.id != "" then Some(c.value.id) else None
  }

  // ---------------------------------------------------------------------------
  // The permit flag and the grant button

  /** `permits.some(p => p.permit_type === 'blacksmith')` */
  function HasBlacksmithPermit(permits: seq<CharacterPermit>): (has: bool)
    ensures has <==> exists i :: 0 <= i < |permits| && permits[i].permitType == BlacksmithPermit
  {
    if permits == [] then false
    else permits[0].permitType == BlacksmithPermit || HasBlacksmithPermit(permits[1..])
  }

  /** The grant button is offered to a blacksmith-guild character without the permit. */
  predicate OffersGrantPermit(c: Character, hasBlacksmithPermit: bool) {
    c.guild == BlacksmithGuild && !hasBlacksmithPermit
  }

  /** Offered exactly when the guild is blacksmith and no permit row is of the blacksmith type. */
  lemma GrantOfferedIff(c: Character, permits: seq<CharacterPermit>)
    ensures OffersGrantPermit(c, HasBlacksmithPermit(permits))
            <==> c.guild == BlacksmithGuild && forall i :: 0 <= i < |permits| ==> permits[i].permitType != BlacksmithPermit
  {
  }

  /** The row `handleGrantBlacksmithPermit` inserts. */
  datatype PermitInsert = PermitInsert(characterId: string, permitType: string)

  function GrantPermitRow(character: Option<Character>): (r: Result<PermitInsert, string>)
    ensures r.Ok? <==> ActiveId(character).Some?
    ensures r.Ok? ==> r.value == PermitInsert(character.value.id, BlacksmithPermit)
  {
    match ActiveId(character)
    case None => Err("No active character found.")
    case Some(id) => Ok(PermitInsert(id, BlacksmithPermit))
  }

  // ---------------------------------------------------------------------------
  // Form inputs

  /** The crowns and pennies inputs: `Math.max(0, parseInt(v) || 0)`, where
      `parsed == None` stands for NaN. */
  function ClampPrice(parsed: Option<int>): (r: int)
    ensures r >= 0
    ensures parsed.Some? && parsed.value >= 0 ==> r == parsed.value
    ensures parsed.None? || parsed.value < 0 ==> r == 0
  {
    Max(0, if parsed.Some? && parsed.value != 0 then parsed.value else 0)
  }

  /** The quantity input: `Math.max(1, Math.min(parseInt(v) || 1, item?.quantity || 1))`. */
  function ClampQuantity(parsed: Option<int>, selected: Option<CharacterItem>): (r: int)
    ensures var owned := if selected.Some? then selected.value.quantity else 0;
            && 1 <= r <= Max(1, owned)
            && (parsed.Some? && 1 <= parsed.value <= owned ==> r == parsed.value)
            && (parsed.None? || parsed.value < 1 ==> r == 1)
            && (parsed.Some? && owned >= 1 && parsed.value > owned ==> r == owned)
  {
    var cap := if selected.Some? && selected.value.quantity != 0 then selected.value.quantity else 1;
    Max(1, Min(if parsed.Some? && parsed.value != 0 then parsed.value else 1, cap))
  }

  // ---------------------------------------------------------------------------
  // The sale guards

  datatype SellError =
    | NothingToSell
    | NegativePrice
    | ZeroPrice
    | PenniesNotBelowTwelve
    | NoCategory
    | QuantityOutOfRange(owned: int)

  function SellErrorMessage(e: SellError): string {
    match e
    case NothingToSell => "No item selected or character not found."
    case NegativePrice => "Price cannot be negative."
    case ZeroPrice => "Price cannot be zero."
    case PenniesNotBelowTwelve => "Pennies must be less than 12. Please convert 12 pennies to 1 Crown."
    case NoCategory => "Please select a category for the item."
    case QuantityOutOfRange(owned) => "Quantity to sell must be between 1 and " + IntToString(owned) + "."
  }

  /** The body sent to the `sell-item` function. */
  datatype SellRequest = SellRequest(
    characterItemId: string,
    priceCrowns: int,
    pricePennies: int,
    category: string,
    quantityToSell: int)

  /** `handleSellItem`'s guards, in order; the first that fails is reported. */
  function CheckSale(characterId: Option<string>, item: Option<CharacterItem>,
                     crowns: int, pennies: int, category: string, quantity: int): (r: Result<SellRequest, SellError>)
    ensures r.Ok? ==> && item.Some? && r.value.characterItemId == item.value.id
                      && r.value.priceCrowns >= 0 && 0 <= r.value.pricePennies < 12
                      && (r.value.priceCrowns, r.value.pricePennies) != (0, 0)
                      && r.value.category != ""
                      && 1 <= r.value.quantityToSell <= item.value.quantity
    ensures r.Err? && r.error.QuantityOutOfRange? ==> item.Some? && r.error.owned == item.value.quantity
  {
    if item.None? || !Truthy(characterId) then Err(NothingToSell)
    else if crowns < 0 || pennies < 0 then Err(NegativePrice)
    else if crowns == 0 && pennies == 0 then Err(ZeroPrice)
    else if pennies >= 12 then Err(PenniesNotBelowTwelve)
    else if category == "" then Err(NoCategory)
    else if quantity <= 0 || quantity > item.value.quantity then Err(QuantityOutOfRange(item.value.quantity))
    else Ok(SellRequest(item.value.id, crowns, pennies, category, quantity))
  }

  /** A sale is submitted exactly when every guard passes, and it carries the form's values. */
  lemma SaleAcceptedIff(characterId: Option<string>, item: Option<CharacterItem>,
                        crowns: int, pennies: int, category: string, quantity: int)
    ensures var r := CheckSale(characterId, item, crowns, pennies, category, quantity);
            r.Ok? <==>
              && item.Some? && Truthy(characterId)
              && crowns >= 0 && pennies >= 0
              && (crowns, pennies) != (0, 0)
              && pennies < 12
              && category != ""
              && 1 <= quantity <= item.value.quantity
    ensures var r := CheckSale(characterId, item, crowns, pennies, category, quantity);
            r.Ok? ==> r.value == SellRequest(item.value.id, crowns, pennies, category, quantity)
  {
  }

  /** Each error is reported exactly when every earlier guard passed and its own failed. */
  lemma SaleErrorIsFirstFailingGuard(characterId: Option<string>, item: Option<CharacterItem>,
                                     crowns: int, pennies: int, category: string, quantity: int)
    ensures var r := CheckSale(characterId, item, crowns, pennies, category, quantity);
            var present := item.Some? && Truthy(characterId);
            && (r == Err(NothingToSell) <==> !present)
            && (r == Err(NegativePrice) <==> present && (crowns < 0 || pennies < 0))
            && (r == Err(ZeroPrice) <==> present && crowns == 0 && pennies == 0)
            && (r == Err(PenniesNotBelowTwelve) <==> present && crowns >= 0 && pennies >= 12)
            && (r == Err(NoCategory) <==> present && crowns >= 0 && 0 <= pennies < 12
                                          && (crowns, pennies) != (0, 0) && category == "")
            && (r.Err? && r.error.QuantityOutOfRange? <==>
                  present && crowns >= 0 && 0 <= pennies < 12 && (crowns, pennies) != (0, 0) && category != ""
                  && !(1 <= quantity <= item.value.quantity))
  {
  }

  /** Values that went through the price inputs never trip the negative-price guard;
      the pennies input does not cap at 11, so only the guard rejects 12 or more. */
  lemma ClampedPricesAreNeverNegative(characterId: Option<string>, item: Option<CharacterItem>,
                                      crownsInput: Option<int>, penniesInput: Option<int>, category: string, quantity: int)
    ensures CheckSale(characterId, item, ClampPrice(crownsInput), ClampPrice(penniesInput), category, quantity) != Err(NegativePrice)
    ensures penniesInput.Some? && penniesInput.value >= 12 && item.Some? && Truthy(characterId)
            ==> CheckSale(characterId, item, ClampPrice(crownsInput), ClampPrice(penniesInput), category, quantity)
                == Err(PenniesNotBelowTwelve)
  {
  }

  // ---------------------------------------------------------------------------
  // Adding pennies

  /** The update `handleAddPennies` writes: ten more pennies, crowns untouched. */
  function WithTenMorePennies(c: Character): Character {
    c.(pennies := c.pennies + 10)
  }

  /** Ten pennies are added with no carry into crowns: the crown count stays and the pennies may
      reach 12 or more, so the value in pennies grows by exactly 10. */
  lemma AddedPenniesDoNotCarry(c: Character)
    ensures WithTenMorePennies(c).crowns == c.crowns
    ensures WithTenMorePennies(c).pennies == c.pennies + 10
    ensures WithTenMorePennies(c).crowns * 12 + WithTenMorePennies(c).pennies == c.crowns * 12 + c.pennies + 10
    ensures 2 <= c.pennies ==> WithTenMorePennies(c).pennies >= 12
    ensures WithTenMorePennies(c).(pennies := c.pennies) == c
  {
  }

  // ---------------------------------------------------------------------------
  // Retirement and death

  datatype Ending = Retirement | Death

  function ProcedureName(e: Ending): string {
    match e
    case Retirement => "retire_character_and_move"
    case Death => "kill_character_and_move"
  }

  function NoCharacterMessage(e: Ending): string {
    match e
    case Retirement => "No character to retire."
    case Death => "No character to declare deceased."
  }

  function EndingFailureMessage(e: Ending, message: string): string {
    match e
    case Retirement => "Failed to retire character: " + message
    case Death => "Failed to declare character deceased: " + message
  }

  /** A call of a database procedure with the character id it is given. */
  datatype ProcedureCall = ProcedureCall(name: string, characterId: string)

  // ---------------------------------------------------------------------------
  // The page's state

  const FetchErrorPrefix := "Error fetching character or items: "
  const AddPenniesErrorPrefix := "Failed to add pennies: "

  class InventoryPage {
    var character: Option<Character>
    var characterItems: seq<CharacterItem>
    var characterPermits: seq<CharacterPermit>
    var hasBlacksmithPermit: bool
    var loading: bool
    var isUpdatingPennies: bool
    var showSellDialog: bool
    var selectedItemToSell: Option<CharacterItem>
    var sellCrowns: int
    var sellPennies: int
    var sellCategory: string
    var sellQuantity: int
    var isSelling: bool

    /** The flag follows the permit rows; the price inputs are never negative, the quantity at least 1. */
    ghost predicate Valid()
      reads this
    {
      && hasBlacksmithPermit == HasBlacksmithPermit(characterPermits)
      && sellCrowns >= 0 && sellPennies >= 0 && sellQuantity >= 1
    }

    constructor ()
      ensures Valid()
      ensures character == None && characterItems == [] && characterPermits == [] && !hasBlacksmithPermit
      ensures loading && !isUpdatingPennies && !showSellDialog && !isSelling
      ensures selectedItemToSell == None && sellCrowns == 0 && sellPennies == 0
      ensures sellCategory == DefaultCategory && sellQuantity == 1
    {
      character := None;
      characterItems := [];
      characterPermits := [];
      hasBlacksmithPermit := false;
      loading := true;
      isUpdatingPennies := false;
      showSellDialog := false;
      selectedItemToSell := None;
      sellCrowns := 0;
      sellPennies := 0;
      sellCategory := DefaultCategory;
      sellQuantity := 1;
      isSelling := false;
    }

    /** `fetchCharacterAndItems`; the three replies stand for the database. An error after
        the character was stored leaves the later cells as they were. */
    method FetchCharacterAndItems(sessionUserId: Option<string>, charReply: Reply<Character>,
                                  itemsReply: Reply<seq<CharacterItem>>, permitsReply: Reply<seq<CharacterPermit>>)
      returns (shownError: Option<string>)
      requires Valid()
      modifies this`character, this`characterItems, this`characterPermits, this`hasBlacksmithPermit, this`loading
      ensures Valid() && !loading
      ensures !Truthy(sessionUserId) || FailsOtherThanNoRows(charReply)
              ==> character == old(character) && characterItems == old(characterItems)
                  && characterPermits == old(characterPermits)
      ensures !Truthy(sessionUserId) ==> shownError == None
      ensures Truthy(sessionUserId) && FailsOtherThanNoRows(charReply)
              ==> shownError == Some(FetchErrorPrefix + charReply.error.value.message)
      ensures Truthy(sessionUserId) && !FailsOtherThanNoRows(charReply) ==> character == charReply.data
      ensures Truthy(sessionUserId) && !FailsOtherThanNoRows(charReply) && charReply.data.None?
              ==> characterItems == [] && characterPermits == [] && !hasBlacksmithPermit && shownError == None
      ensures Truthy(sessionUserId) && !FailsOtherThanNoRows(charReply) && charReply.data.Some?
              && itemsReply.error.None? && permitsReply.error.None?
              ==> characterItems == itemsReply.data.GetOr([]) && characterPermits == permitsReply.data.GetOr([])
                  && hasBlacksmithPermit == HasBlacksmithPermit(characterPermits) && shownError == None
      ensures Truthy(sessionUserId) && !FailsOtherThanNoRows(charReply) && charReply.data.Some?
              && itemsReply.error.Some?
              ==> characterItems == old(characterItems) && characterPermits == old(characterPermits)
                  && hasBlacksmithPermit == old(hasBlacksmithPermit)
                  && shownError == Some(FetchErrorPrefix + itemsReply.error.value.message)
      ensures Truthy(sessionUserId) && !FailsOtherThanNoRows(charReply) && charReply.data.Some?
              && itemsReply.error.None? && permitsReply.error.Some?
              ==> characterItems == itemsReply.data.GetOr([]) && characterPermits == old(characterPermits)
                  && hasBlacksmithPermit == old(hasBlacksmithPermit)
                  && shownError == Some(FetchErrorPrefix + permitsReply.error.value.message)
    {
      shownError := None;
      if !Truthy(sessionUserId) {
        loading := false;
        return;
      }
      if FailsOtherThanNoRows(charReply) {
        shownError := Some(FetchErrorPrefix + charReply.error.value.message);
        loading := false;
        return;
      }
      character := charReply.data;
      if charReply.data.Some? {
        if itemsReply.error.Some? {
          shownError := Some(FetchErrorPrefix + itemsReply.error.value.message);
          loading := false;
          return;
        }
        characterItems := itemsReply.data.GetOr([]);
        if permitsReply.error.Some? {
          shownError := Some(FetchErrorPrefix + permitsReply.error.value.message);
          loading := false;
          return;
        }
        characterPermits := permitsReply.data.GetOr([]);
        hasBlacksmithPermit := HasBlacksmithPermit(characterPermits);
      } else {
        characterItems := [];
        characterPermits := [];
        hasBlacksmithPermit := false;
      }
      loading := false;
    }

    /** The crowns input's change handler. */
    method SetSellCrowns(parsed: Option<int>)
      requires Valid()
      modifies this`sellCrowns
      ensures Valid() && sellCrowns == ClampPrice(parsed)
    {
      sellCrowns := ClampPrice(parsed);
    }

    /** The pennies input's change handler. */
    method SetSellPennies(parsed: Option<int>)
      requires Valid()
      modifies this`sellPennies
      ensures Valid() && sellPennies == ClampPrice(parsed)
    {
      sellPennies := ClampPrice(parsed);
    }

    /** The quantity input's change handler. */
    method SetSellQuantity(parsed: Option<int>)
      requires Valid()
      modifies this`sellQuantity
      ensures Valid() && sellQuantity == ClampQuantity(parsed, selectedItemToSell)
    {
      sellQuantity := ClampQuantity(parsed, selectedItemToSell);
    }

    /** The category select's change handler. */
    method SetSellCategory(category: string)
      requires Valid()
      modifies this`sellCategory
      ensures Valid() && sellCategory == category
    {
      sellCategory := category;
    }

    /** An item's Sell button: select it, reset the quantity to 1 and open the dialog. */
    method OpenSellDialog(item: CharacterItem)
      requires Valid()
      modifies this`selectedItemToSell, this`sellQuantity, this`showSellDialog
      ensures Valid() && selectedItemToSell == Some(item) && sellQuantity == 1 && showSellDialog
    {
      selectedItemToSell := Some(item);
      sellQuantity := 1;
      showSellDialog := true;
    }

    /** `handleSellItem`. `invokeError` is the reply of the `sell-item` function. Nothing is
        invoked unless every guard passes; after a successful sale the form is reset. */
    method SellItem(invokeError: Option<string>) returns (invoked: Option<SellRequest>, shownError: Option<string>)
      requires Valid()
      modifies this`showSellDialog, this`selectedItemToSell, this`sellCrowns, this`sellPennies,
               this`sellCategory, this`sellQuantity, this`isSelling
      ensures Valid()
      ensures var check := CheckSale(ActiveId(old(character)), old(selectedItemToSell),
                                     old(sellCrowns), old(sellPennies), old(sellCategory), old(sellQuantity));
              && check != Err(NegativePrice)
              && (check.Err? ==> invoked == None && shownError == Some(SellErrorMessage(check.error))
                                 && isSelling == old(isSelling))
              && (check.Ok? ==> invoked == Some(check.value) && !isSelling)
      ensures invoked.Some? && invokeError.None?
              ==> !showSellDialog && selectedItemToSell == None && sellCrowns == 0 && sellPennies == 0
                  && sellCategory == DefaultCategory && sellQuantity == 1 && shownError == None
      ensures invoked.None? || invokeError.Some?
              ==> showSellDialog == old(showSellDialog) && selectedItemToSell == old(selectedItemToSell)
                  && sellCrowns == old(sellCrowns) && sellPennies == old(sellPennies)
                  && sellCategory == old(sellCategory) && sellQuantity == old(sellQuantity)
      ensures invoked.Some? && invokeError.Some? ==> shownError == Some("Failed to sell item: " + invokeError.value)
    {
      var check := CheckSale(ActiveId(character), selectedItemToSell, sellCrowns, sellPennies, sellCategory, sellQuantity);
      if check.Err? {
        invoked, shownError := None, Some(SellErrorMessage(check.error));
        return;
      }
      isSelling := true;
      invoked := Some(check.value);
      if invokeError.Some? {
        shownError := Some("Failed to sell item: " + invokeError.value);
      } else {
        shownError := None;
        showSellDialog := false;
        selectedItemToSell := None;
        sellCrowns := 0;
        sellPennies := 0;
        sellCategory := DefaultCategory;
        sellQuantity := 1;
      }
      isSelling := false;
    }

    /** `handleAddPennies` over the `characters` table: read the row, write its pennies plus 10,
        and show the row the update hands back. The database's behaviour is given as parameters:
        `readError` is an error the single-row read reports, `noRowMessage` its message when it
        finds no row, `updateError` an error the update reports, and `mayUpdate` whether the
        row-level update policy lets the row be written (when it does not, the update matches no
        row, reports no error and hands back an empty list). */
    method AddPennies(table: map<string, Character>, readError: Option<DbError>, noRowMessage: string,
                      updateError: Option<DbError>, mayUpdate: bool)
      returns (table': map<string, Character>, shownError: Option<string>)
      requires Valid()
      modifies this`character, this`isUpdatingPennies
      ensures Valid()
      ensures ActiveId(old(character)).None?
              ==> table' == table && character == old(character) && isUpdatingPennies == old(isUpdatingPennies)
                  && shownError == Some("No active character found.")
      ensures ActiveId(old(character)).Some? ==> !isUpdatingPennies
      ensures var id := ActiveId(old(character));
              id.Some? && readError.Some?
              ==> table' == table && character == old(character)
                  && shownError == Some(AddPenniesErrorPrefix + readError.value.message)
      ensures var id := ActiveId(old(character));
              id.Some? && readError.None? && id.value !in table
              ==> table' == table && character == old(character)
                  && shownError == Some(AddPenniesErrorPrefix + noRowMessage)
      ensures var id := ActiveId(old(character));
              id.Some? && readError.None? && id.value in table && updateError.Some?
              ==> table' == table && character == old(character)
                  && shownError == Some(AddPenniesErrorPrefix + updateError.value.message)
      ensures var id := ActiveId(old(character));
              id.Some? && readError.None? && id.value in table && updateError.None? && !mayUpdate
              ==> table' == table && character == old(character) && shownError == None
      ensures var id := ActiveId(old(character));
              id.Some? && readError.None? && id.value in table && updateError.None? && mayUpdate
              ==> && table' == table[id.value := WithTenMorePennies(table[id.value])]
                  && character == Some(table'[id.value]) && shownError == None
    {
      var id := ActiveId(character);
      if id.None? {
        table', shownError := table, Some("No active character found.");
        return;
      }
      isUpdatingPennies := true;
      table', shownError := table, None;
      if readError.Some? {
        shownError := Some(AddPenniesErrorPrefix + readError.value.message);
      } else if id.value !in table {
        shownError := Some(AddPenniesErrorPrefix + noRowMessage);
      } else if updateError.Some? {
        shownError := Some(AddPenniesErrorPrefix + updateError.value.message);
      } else if mayUpdate {
        var current := table[id.value];
        var newPennies := current.pennies + 10;
        table' := table[id.value := current.(pennies := newPennies)];
        character := Some(table'[id.value]);
      }
      isUpdatingPennies := false;
    }

    /** `handleRetireCharacter` and `handleCharacterDeath`: without a character nothing is called;
        on success the character is cleared and the user sent to character creation. */
    method EndCharacter(ending: Ending, procedureError: Option<string>)
      returns (call: Option<ProcedureCall>, navigateTo: Option<string>, shownError: Option<string>)
      requires Valid()
      modifies this`character
      ensures Valid()
      ensures ActiveId(old(character)).None?
              ==> call == None && navigateTo == None && character == old(character)
                  && shownError == Some(NoCharacterMessage(ending))
      ensures ActiveId(old(character)).Some?
              ==> call == Some(ProcedureCall(ProcedureName(ending), old(character).value.id))
      ensures ActiveId(old(character)).Some? && procedureError.None?
              ==> character == None && navigateTo == Some(SessionContext.CreateCharacterPath) && shownError == None
      ensures ActiveId(old(character)).Some? && procedureError.Some?
              ==> character == old(character) && navigateTo == None
                  && shownError == Some(EndingFailureMessage(ending, procedureError.value))
    {
      var id := ActiveId(character);
      if id.None? {
        call, navigateTo, shownError := None, None, Some(NoCharacterMessage(ending));
        return;
      }
      call := Some(ProcedureCall(ProcedureName(ending), id.value));
      if procedureError.Some? {
        navigateTo, shownError := None, Some(EndingFailureMessage(ending, procedureError.value));
      } else {
        character := None;
        navigateTo, shownError := Some(SessionContext.CreateCharacterPath), None;
      }
    }
  }
}

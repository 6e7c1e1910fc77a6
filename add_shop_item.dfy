/** The `add-shop-item` edge function: validate a stock request, then expand it into
    `quantity` identical shop rows with no seller and no crafter. */
module AddShopItem {
  import opened Js
  import opened Http

  /** A JSON field after `req.json()`; numbers are integral in this model. */
  datatype JsValue = Undefined | Null | Bool(b: bool) | Num(n: int) | Str(s: string)

  /** JavaScript truthiness: `!v` is false exactly for these values. */
  predicate IsTruthy(v: JsValue) {
    match v
    case Undefined => false
    case Null => false
    case Bool(b) => b
    case Num(n) => n != 0
    case Str(s) => s != ""
  }

  /** `${v}` in a template string. */
  function JsToString(v: JsValue): string {
    match v
    case Undefined => "undefined"
    case Null => "null"
    case Bool(b) => if b then "true" else "false"
    case Num(n) => IntToString(n)
    case Str(s) => s
  }

  /** The request body; `quantity == None` is an absent (undefined) field. */
  datatype ShopItemRequest = ShopItemRequest(name: JsValue, crowns: JsValue, pennies: JsValue, category: JsValue, quantity: Option<int>)

  /** One row of `itemsToInsert`. */
  datatype ShopItemInsert = ShopItemInsert(
    name: JsValue,
    crowns: JsValue,
    pennies: JsValue,
    category: JsValue,
    sellerId: Option<string>,
    sellerCharacterId: Option<string>,
    crafterUserId: Option<string>)

  const InvalidParametersMessage := "Missing or invalid required parameters (name, crowns, pennies, category, quantity)."

  /** The 400 guard. Crowns and pennies are only checked for being defined. */
  predicate Rejects(req: ShopItemRequest) {
    || !IsTruthy(req.name)
    || req.crowns == Undefined
    || req.pennies == Undefined
    || !IsTruthy(req.category)
    || req.quantity.None?
    || req.quantity.value <= 0
  }

  /** A zero price and pennies of 12 or more pass the guard: only undefinedness is checked. */
  lemma PriceIsNotValidated(name: JsValue, category: JsValue, pennies: int, quantity: int)
    requires IsTruthy(name) && IsTruthy(category) && quantity > 0
    ensures !Rejects(ShopItemRequest(name, Num(0), Num(0), category, Some(quantity)))
    ensures pennies >= 12 ==> !Rejects(ShopItemRequest(name, Num(0), Num(pennies), category, Some(quantity)))
  {
  }

  function SuccessMessage(quantity: int, name: JsValue): string {
    IntToString(quantity) + " " + JsToString(name) + "(s) successfully added to marketplace."
  }

  /** The success message names the quantity, in digits that read back as it, then the item name. */
  lemma SuccessMessageNamesQuantityAndItem(quantity: nat, name: JsValue)
    ensures var m := SuccessMessage(quantity, name);
            var digits := NatToDecimal(quantity);
            var shown := JsToString(name);
            && |digits| + 1 + |shown| <= |m|
            && m[..|digits|] == digits && DecimalValue(digits) == quantity
            && m[|digits|] == ' '
            && m[|digits| + 1..|digits| + 1 + |shown|] == shown
  {
    DecimalRoundTrip(quantity);
    var m := SuccessMessage(quantity, name);
    var digits := NatToDecimal(quantity);
    var shown := JsToString(name);
    var tail := "(s) successfully added to marketplace.";
    assert m == digits + [' '] + shown + tail;
    assert m[..|digits|] == digits;
    assert m[|digits| + 1..|digits| + 1 + |shown|] == shown;
  }

  /** One invocation. `insertError` is the database's reply to the bulk insert. */
  method HandleAddShopItem(req: ShopItemRequest, insertError: Option<string>)
    returns (response: Response, itemsToInsert: seq<ShopItemInsert>)
    ensures Rejects(req) <==> response.status == StatusBadRequest
    ensures Rejects(req) ==> itemsToInsert == [] && response.body == ErrorBody(InvalidParametersMessage)
    ensures !Rejects(req) ==> |itemsToInsert| == req.quantity.value
    ensures forall i :: 0 <= i < |itemsToInsert| ==>
              && itemsToInsert[i].name == req.name && itemsToInsert[i].crowns == req.crowns
              && itemsToInsert[i].pennies == req.pennies && itemsToInsert[i].category == req.category
              && itemsToInsert[i].sellerId.None? && itemsToInsert[i].sellerCharacterId.None?
              && itemsToInsert[i].crafterUserId.None?
    ensures !Rejects(req) && insertError.Some? ==> response == Response(StatusServerError, ErrorBody(insertError.value))
    ensures !Rejects(req) && insertError.None?
            ==> response == Response(StatusOk, MessageBody(SuccessMessage(req.quantity.value, req.name)))
  {
    if Rejects(req) {
      return Response(StatusBadRequest, ErrorBody(InvalidParametersMessage)), [];
    }
    var quantity := req.quantity.value;
    itemsToInsert := [];
    var i := 0;
    while i < quantity
      invariant 0 <= i <= quantity
      invariant |itemsToInsert| == i
      invariant forall j :: 0 <= j < i ==>
                  itemsToInsert[j] == ShopItemInsert(req.name, req.crowns, req.pennies, req.category, None, None, None)
    {
      itemsToInsert := itemsToInsert + [ShopItemInsert(req.name, req.crowns, req.pennies, req.category, None, None, None)];
      i := i + 1;
    }
    if insertError.Some? {
      return Response(StatusServerError, ErrorBody(insertError.value)), itemsToInsert;
    }
    response := Response(StatusOk, MessageBody(SuccessMessage(quantity, req.name)));
  }
}

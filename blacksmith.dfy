/** The blacksmith page's access gate: which of its four views it renders for the
    session provider's current state. */
module Blacksmith {
  import opened Js
  import opened Tables
  import SessionContext
  import CharacterInventory

  datatype View = LoadingView | AccessDenied | PermitRequired | Shop

  /** The page's chain of early returns, first match wins. `hasSession` is the truthiness of
      the session object; `permits` is the provider's `activeCharacterPermits`. */
  function BlacksmithView(loadingSession: bool, hasSession: bool, activeCharacter: Option<Character>,
                          permits: seq<string>): View
  {
    if loadingSession then LoadingView
    else if !hasSession then AccessDenied
    else if activeCharacter.None? || CharacterInventory.BlacksmithPermit !in permits then PermitRequired
    else Shop
  }

  /** Each view is shown exactly under its own condition: loading wins over everything, then a
      missing session, then a missing character or permit; the shop needs all four. */
  lemma ViewConditions(loadingSession: bool, hasSession: bool, activeCharacter: Option<Character>, permits: seq<string>)
    ensures var v := BlacksmithView(loadingSession, hasSession, activeCharacter, permits);
            && (v == LoadingView <==> loadingSession)
            && (v == AccessDenied <==> !loadingSession && !hasSession)
            && (v == PermitRequired <==> !loadingSession && hasSession
                                         && (activeCharacter.None? || CharacterInventory.BlacksmithPermit !in permits))
            && (v == Shop <==> !loadingSession && hasSession && activeCharacter.Some?
                               && CharacterInventory.BlacksmithPermit in permits)
  {
  }

  /** The permit types the provider keeps contain "blacksmith" exactly when the inventory page's
      permit flag holds for the same rows: the two pages agree on who holds the permit. */
  lemma {:induction false} PermitListAgreesWithFlag(rows: seq<CharacterPermit>)
    ensures CharacterInventory.BlacksmithPermit in SessionContext.PermitTypes(rows)
            <==> CharacterInventory.HasBlacksmithPermit(rows)
  {
    if rows != [] {
      PermitListAgreesWithFlag(rows[1..]);
      assert SessionContext.PermitTypes(rows) == [rows[0].permitType] + SessionContext.PermitTypes(rows[1..]);
    }
  }

  /** Once the provider has looked up a character without error, the shop opens exactly when a
      character was found and one of its permit rows is a blacksmith permit. */
  lemma ShopFollowsLookup(character: Reply<Character>, permits: Reply<seq<CharacterPermit>>)
    requires !FailsOtherThanNoRows(character) && permits.error.None?
    ensures var l := SessionContext.CharacterLookup(character, permits);
            BlacksmithView(false, true, l.character, l.permits) == Shop
            <==> character.data.Some? && CharacterInventory.HasBlacksmithPermit(permits.data.GetOr([]))
  {
    PermitListAgreesWithFlag(permits.data.GetOr([]));
  }
}

/** The session provider: four state cells that the authentication listener and
    the character lookup overwrite, and the redirect effect that gates every path. */
module SessionContext {
  import opened Js
  import opened Tables

  const LoginPath := "/login"
  const CreateCharacterPath := "/create-character"
  const HomePath := "/home"

  /** Where a user with a session and an active character may stay. */
  const AllowedAuthPaths: seq<string> := [
    "/", "/home", "/character-inventory", "/marketplace",
    "/branch-members", "/the-recently-dead", "/local-marketplace", "/blacksmith"]

  /** The paths the router declares; any other path renders the not-found page. */
  const RoutedPaths: seq<string> := [
    "/", "/login", "/create-character", "/character-inventory", "/marketplace",
    "/home", "/branch-members", "/the-recently-dead", "/local-marketplace", "/blacksmith"]

  datatype Navigation = Stay | NavigateTo(path: string)

  // ---------------------------------------------------------------------------
  // The redirect effect, as written

  /** The effect navigates only once loading is over, never to the path it is on, and only to
      a path the router declares. */
  function Redirect(loadingSession: bool, hasSession: bool, hasCharacter: bool, currentPath: string): (nav: Navigation)
    ensures nav.NavigateTo? ==> !loadingSession && nav.path != currentPath && nav.path in RoutedPaths
  {
    if loadingSession then Stay
    else if hasSession then
      if hasCharacter then
        if currentPath !in AllowedAuthPaths then NavigateTo(HomePath) else Stay
      else
        if currentPath != CreateCharacterPath then NavigateTo(CreateCharacterPath) else Stay
    else
      if currentPath != LoginPath then NavigateTo(LoginPath) else Stay
  }

  // ---------------------------------------------------------------------------
  // Reference: the gate as a three-state access machine, each state with its
  // landing path and the paths it may stay on

  datatype Access = Anonymous | NoCharacter | WithCharacter

  function AccessOf(hasSession: bool, hasCharacter: bool): Access {
    if !hasSession then Anonymous else if !hasCharacter then NoCharacter else WithCharacter
  }

  function Landing(a: Access): string {
    match a
    case Anonymous => LoginPath
    case NoCharacter => CreateCharacterPath
    case WithCharacter => HomePath
  }

  predicate MayStay(a: Access, path: string) {
    match a
    case Anonymous => path == LoginPath
    case NoCharacter => path == CreateCharacterPath
    case WithCharacter => path in AllowedAuthPaths
  }

  /** Once loading has finished, the effect stays exactly where the access state allows
      and otherwise sends the user to that state's landing path. */
  lemma RedirectFollowsAccessMachine(hasSession: bool, hasCharacter: bool, currentPath: string)
    ensures var a := AccessOf(hasSession, hasCharacter);
            Redirect(false, hasSession, hasCharacter, currentPath)
              == if MayStay(a, currentPath) then Stay else NavigateTo(Landing(a))
  {
  }

  /** While the session is loading the effect never navigates. */
  lemma LoadingNeverNavigates(hasSession: bool, hasCharacter: bool, currentPath: string)
    ensures Redirect(true, hasSession, hasCharacter, currentPath) == Stay
  {
  }

  /** Without a session: to the login page, exactly when not already there. */
  lemma AnonymousGoesToLogin(hasCharacter: bool, currentPath: string)
    ensures Redirect(false, false, hasCharacter, currentPath) != Stay <==> currentPath != LoginPath
    ensures Redirect(false, false, hasCharacter, currentPath) != Stay
            ==> Redirect(false, false, hasCharacter, currentPath) == NavigateTo(LoginPath)
  {
  }

  /** With a session and no character: to character creation, exactly when not already there. */
  lemma NoCharacterGoesToCreation(currentPath: string)
    ensures Redirect(false, true, false, currentPath) != Stay <==> currentPath != CreateCharacterPath
    ensures Redirect(false, true, false, currentPath) != Stay
            ==> Redirect(false, true, false, currentPath) == NavigateTo(CreateCharacterPath)
  {
  }

  /** With a session and a character: home, exactly when the path is outside the allow-list. */
  lemma CharacterGoesHomeOutsideAllowList(currentPath: string)
    ensures Redirect(false, true, true, currentPath) != Stay <==> currentPath !in AllowedAuthPaths
    ensures Redirect(false, true, true, currentPath) != Stay
            ==> Redirect(false, true, true, currentPath) == NavigateTo(HomePath)
  {
  }

  /** A signed-in user with a character is sent home from the login and creation pages,
      since neither is in the allow-list. */
  lemma LoginAndCreationLeadHome(currentPath: string)
    requires currentPath == LoginPath || currentPath == CreateCharacterPath
    ensures Redirect(false, true, true, currentPath) == NavigateTo(HomePath)
  {
  }

  /** Every redirect target is a fixed point: re-running the effect there with the same
      session and character does not navigate again. */
  lemma RedirectTargetIsFixedPoint(loadingSession: bool, hasSession: bool, hasCharacter: bool, currentPath: string)
    ensures var nav := Redirect(loadingSession, hasSession, hasCharacter, currentPath);
            nav.NavigateTo? ==> Redirect(loadingSession, hasSession, hasCharacter, nav.path) == Stay
  {
  }

  /** Every landing path and every allowed path is a route the router declares. */
  lemma GateTargetsAreRoutes()
    ensures forall a: Access :: Landing(a) in RoutedPaths
    ensures forall p :: p in AllowedAuthPaths ==> p in RoutedPaths
  {
  }

  // ---------------------------------------------------------------------------
  // The character and permit lookup

  datatype Session = Session(userId: Option<string>)

  /** `session?.user?.id` */
  function UserIdOf(s: Option<Session>): Option<string> {
    if s.Some? then s.value.userId else None
  }

  /** What `fetchCharacterData` leaves in `activeCharacter` and `activeCharacterPermits`,
      and the error it shows, if any. */
  datatype Lookup = Lookup(character: Option<Character>, permits: seq<string>, shownError: Option<string>)

  /** `permitsData.map(p => p.permit_type)`: one permit type per row, in the order the rows
      were returned. */
  function PermitTypes(rows: seq<CharacterPermit>): (types: seq<string>)
    ensures |types| == |rows|
    ensures forall i :: 0 <= i < |rows| ==> types[i] == rows[i].permitType
  {
    if rows == [] then [] else [rows[0].permitType] + PermitTypes(rows[1..])
  }

  /** The catch block: both cells reset and the message shown. */
  function LoadFailure(e: DbError): Lookup {
    Lookup(None, [], Some("Failed to load character data: " + e.message))
  }

  /** `fetchCharacterData`'s outcome. Permits are never held without a character, an error is
      never shown beside one, and a character held is the one the query returned. */
  function CharacterLookup(character: Reply<Character>, permits: Reply<seq<CharacterPermit>>): (l: Lookup)
    ensures l.character.None? ==> l.permits == []
    ensures l.shownError.Some? ==> l.character.None?
    ensures l.character.Some? ==> l.character == character.data && !FailsOtherThanNoRows(character)
  {
    if FailsOtherThanNoRows(character) then LoadFailure(character.error.value)
    else match character.data
      case None => Lookup(None, [], None)
      case Some(c) =>
        if permits.error.Some? then LoadFailure(permits.error.value)
        else Lookup(Some(c), PermitTypes(permits.data.GetOr([])), None)
  }

  /** "No rows" is absence, not failure: no character, no permits, nothing shown. */
  lemma NoRowsIsAbsence(character: Reply<Character>, permits: Reply<seq<CharacterPermit>>)
    requires character.data.None? && (character.error.None? || character.error.value.code == NoRowsCode)
    ensures CharacterLookup(character, permits) == Lookup(None, [], None)
  {
  }

  /** Any other error of either query resets both cells and is shown to the user. */
  lemma OtherErrorsReset(character: Reply<Character>, permits: Reply<seq<CharacterPermit>>)
    requires FailsOtherThanNoRows(character) || (character.data.Some? && !FailsOtherThanNoRows(character) && permits.error.Some?)
    ensures var r := CharacterLookup(character, permits);
            r.character == None && r.permits == [] && r.shownError.Some?
  {
  }

  /** A found character keeps its permits' types, in the returned order; a null permit list is []. */
  lemma FoundCharacterPermits(character: Reply<Character>, permits: Reply<seq<CharacterPermit>>)
    requires !FailsOtherThanNoRows(character) && character.data.Some? && permits.error.None?
    ensures var r := CharacterLookup(character, permits);
            var rows := permits.data.GetOr([]);
            && r.character == character.data && r.shownError == None
            && |r.permits| == |rows|
            && (forall i :: 0 <= i < |rows| ==> r.permits[i] == rows[i].permitType)
  {
  }

  // ---------------------------------------------------------------------------
  // The provider's state cells

  class SessionProvider {
    var session: Option<Session>
    var activeCharacter: Option<Character>
    var activeCharacterPermits: seq<string>
    var loadingSession: bool

    constructor ()
      ensures session == None && activeCharacter == None && activeCharacterPermits == [] && loadingSession
    {
      session := None;
      activeCharacter := None;
      activeCharacterPermits := [];
      loadingSession := true;
    }

    /** The redirect effect over the current cells. */
    function RedirectFor(currentPath: string): Navigation
      reads this
    {
      Redirect(loadingSession, session.Some?, activeCharacter.Some?, currentPath)
    }

    /** `fetchCharacterData`; the two query replies stand for the database. */
    method FetchCharacterData(character: Reply<Character>, permits: Reply<seq<CharacterPermit>>)
      returns (shownError: Option<string>)
      modifies this`activeCharacter, this`activeCharacterPermits
      ensures Lookup(activeCharacter, activeCharacterPermits, shownError) == CharacterLookup(character, permits)
    {
      if FailsOtherThanNoRows(character) {
        shownError := Some("Failed to load character data: " + character.error.value.message);
        activeCharacter := None;
        activeCharacterPermits := [];
        return;
      }
      activeCharacter := character.data;
      if character.data.Some? {
        if permits.error.Some? {
          shownError := Some("Failed to load character data: " + permits.error.value.message);
          activeCharacter := None;
          activeCharacterPermits := [];
          return;
        }
        activeCharacterPermits := PermitTypes(permits.data.GetOr([]));
      } else {
        activeCharacterPermits := [];
      }
      shownError := None;
    }

    /** The authentication listener: store the session, look the character up
        when there is a user id, and finish loading. */
    method OnAuthStateChange(currentSession: Option<Session>, character: Reply<Character>, permits: Reply<seq<CharacterPermit>>)
      returns (shownError: Option<string>)
      modifies this
      ensures session == currentSession && !loadingSession
      ensures Truthy(UserIdOf(currentSession))
              ==> Lookup(activeCharacter, activeCharacterPermits, shownError) == CharacterLookup(character, permits)
      ensures !Truthy(UserIdOf(currentSession))
              ==> activeCharacter == None && activeCharacterPermits == [] && shownError == None
      ensures forall p :: RedirectFor(p) == Redirect(false, currentSession.Some?, activeCharacter.Some?, p)
    {
      session := currentSession;
      if Truthy(UserIdOf(currentSession)) {
        shownError := FetchCharacterData(character, permits);
      } else {
        activeCharacter := None;
        activeCharacterPermits := [];
        shownError := None;
      }
      loadingSession := false;
    }

    /** The initial check: set loading, then proceed as the listener does with the stored session. */
    method HandleAuthAndCharacterCheck(initialSession: Option<Session>, character: Reply<Character>, permits: Reply<seq<CharacterPermit>>)
      returns (shownError: Option<string>)
      modifies this
      ensures session == initialSession && !loadingSession
      ensures Truthy(UserIdOf(initialSession))
              ==> Lookup(activeCharacter, activeCharacterPermits, shownError) == CharacterLookup(character, permits)
      ensures !Truthy(UserIdOf(initialSession))
              ==> activeCharacter == None && activeCharacterPermits == [] && shownError == None
      ensures forall p :: RedirectFor(p) == Redirect(false, initialSession.Some?, activeCharacter.Some?, p)
    {
      loadingSession := true;
      shownError := OnAuthStateChange(initialSession, character, permits);
    }
  }
}

/** The character-creation form: a chain of guards on the session and the form fields,
    then one insert of the new character row. */
module CreateCharacter {
  import opened Js
  import opened Tables

  const InventoryPath := "/character-inventory"

  /** ECMAScript's WhiteSpace and LineTerminator characters, which `String.prototype.trim` strips. */
  predicate IsJsWhitespace(c: char) {
    || c == ' ' || c == '\t' || c == '\n' || c == '\r' || c == '\U{000B}' || c == '\U{000C}'
    || c == '\U{00A0}' || c == '\U{1680}' || ('\U{2000}' <= c <= '\U{200A}')
    || c == '\U{2028}' || c == '\U{2029}' || c == '\U{202F}' || c == '\U{205F}'
    || c == '\U{3000}' || c == '\U{FEFF}'
  }

  predicate AllWhitespace(s: string) {
    forall i :: 0 <= i < |s| ==> IsJsWhitespace(s[i])
  }

  /** Strips leading whitespace: the result is the suffix after the longest whitespace prefix. */
  function TrimStart(s: string): (r: string)
    ensures |r| <= |s| && r == s[|s| - |r|..]
    ensures AllWhitespace(s[..|s| - |r|])
    ensures r == [] || !IsJsWhitespace(r[0])
  {
    if s != [] && IsJsWhitespace(s[0]) then
      var r := TrimStart(s[1..]);
      assert s[..|s| - |r|] == [s[0]] + s[1..][..|s| - 1 - |r|];
      r
    else s
  }

  /** Strips trailing whitespace: the result is the prefix before the longest whitespace suffix. */
  function TrimEnd(s: string): (r: string)
    ensures |r| <= |s| && r == s[..|r|]
    ensures AllWhitespace(s[|r|..])
    ensures r == [] || !IsJsWhitespace(r[|r| - 1])
  {
    if s != [] && IsJsWhitespace(s[|s| - 1]) then
      var r := TrimEnd(s[..|s| - 1]);
      assert s[|r|..] == s[..|s| - 1][|r|..] + [s[|s| - 1]];
      r
    else s
  }

  /** `s.trim()`. */
  function Trim(s: string): string {
    TrimEnd(TrimStart(s))
  }

  /** The trimmed string is the slice of the input between a whitespace prefix and a
      whitespace suffix, and neither of its ends is whitespace. */
  lemma TrimIsCoreSlice(s: string)
    ensures var r := Trim(s);
            var a := |s| - |TrimStart(s)|;
            && a + |r| <= |s| && r == s[a..a + |r|]
            && AllWhitespace(s[..a]) && AllWhitespace(s[a + |r|..])
            && (r == [] || (!IsJsWhitespace(r[0]) && !IsJsWhitespace(r[|r| - 1])))
  {
    TrimIsSlice(s);
    TrimDropsOnlyWhitespace(s);
    TrimEndsAreNotWhitespace(s);
  }

  lemma TrimIsSlice(s: string)
    ensures var a := |s| - |TrimStart(s)|;
            a + |Trim(s)| <= |s| && Trim(s) == s[a..a + |Trim(s)|]
  {
    var t := TrimStart(s);
    var r := TrimEnd(t);
    var a := |s| - |t|;
    assert t == s[a..] && r == t[..|r|];
    PrefixOfSuffix(s, a, |r|);
  }

  lemma PrefixOfSuffix<T>(s: seq<T>, a: nat, n: nat)
    requires a <= |s| && n <= |s| - a
    ensures s[a..][..n] == s[a..a + n]
  {
  }

  lemma TrimDropsOnlyWhitespace(s: string)
    ensures var a := |s| - |TrimStart(s)|;
            AllWhitespace(s[..a]) && AllWhitespace(s[a + |Trim(s)|..])
  {
    var t := TrimStart(s);
    var a := |s| - |t|;
    assert s[a + |Trim(s)|..] == t[|Trim(s)|..];
  }

  lemma TrimEndsAreNotWhitespace(s: string)
    ensures Trim(s) == [] || (!IsJsWhitespace(Trim(s)[0]) && !IsJsWhitespace(Trim(s)[|Trim(s)| - 1]))
  {
    var t := TrimStart(s);
    if Trim(s) != [] {
      assert Trim(s)[0] == t[0];
    }
  }

  /** Stripping trailing whitespace cannot empty a string whose first character is not whitespace. */
  lemma {:induction false} TrimEndKeepsFirst(t: string)
    requires t != [] && !IsJsWhitespace(t[0])
    ensures TrimEnd(t) != []
    decreases |t|
  {
    if IsJsWhitespace(t[|t| - 1]) {
      assert t[..|t| - 1][0] == t[0];
      TrimEndKeepsFirst(t[..|t| - 1]);
    }
  }

  /** A name trims to nothing exactly when every character of it is whitespace. */
  lemma TrimEmptyIffAllWhitespace(s: string)
    ensures Trim(s) == "" <==> AllWhitespace(s)
  {
    var t := TrimStart(s);
    if t != [] {
      TrimEndKeepsFirst(t);
    }
    if Trim(s) == "" {
      assert s[..|s| - |t|] == s;
    }
  }

  /** Trimming twice gives what trimming once gives. */
  lemma TrimIsIdempotent(s: string)
    ensures Trim(Trim(s)) == Trim(s)
  {
    TrimIsCoreSlice(s);
  }

  datatype CreateError = NotLoggedIn | EmptyName | NoRace | NoGuild

  function CreateErrorMessage(e: CreateError): string {
    match e
    case NotLoggedIn => "User not logged in."
    case EmptyName => "Character name cannot be empty."
    case NoRace => "Please select a character race."
    case NoGuild => "Please select a character guild."
  }

  /** The row handed to the insert: owner, trimmed name, race and guild, and nothing else.
      Branch, currency and timestamps are left to the database's defaults. */
  datatype NewCharacter = NewCharacter(userId: string, name: string, race: string, guild: string)

  /** The guard chain of `handleCreateCharacter`, in the order the form checks it. */
  function ValidateCreation(sessionUserId: Option<string>, characterName: string, race: string, guild: string)
    : Result<NewCharacter, CreateError>
  {
    if !Truthy(sessionUserId) then Err(NotLoggedIn)
    else if Trim(characterName) == "" then Err(EmptyName)
    else if race == "" then Err(NoRace)
    else if guild == "" then Err(NoGuild)
    else Ok(NewCharacter(sessionUserId.value, Trim(characterName), race, guild))
  }

  /** A creation goes ahead exactly when a user is signed in, the name holds a character that
      is not whitespace, and race and guild are chosen; the row then carries the user, the
      trimmed name, the race and the guild. */
  lemma CreationAcceptedIff(sessionUserId: Option<string>, characterName: string, race: string, guild: string)
    ensures ValidateCreation(sessionUserId, characterName, race, guild).Ok?
            <==> Truthy(sessionUserId) && !AllWhitespace(characterName) && race != "" && guild != ""
    ensures ValidateCreation(sessionUserId, characterName, race, guild).Ok?
            ==> ValidateCreation(sessionUserId, characterName, race, guild).value
                == NewCharacter(sessionUserId.value, Trim(characterName), race, guild)
  {
    TrimEmptyIffAllWhitespace(characterName);
  }

  /** The error reported is that of the first guard that fails. */
  lemma CreationErrorIsFirstFailingGuard(sessionUserId: Option<string>, characterName: string, race: string, guild: string)
    ensures var v := ValidateCreation(sessionUserId, characterName, race, guild);
            && (v == Err(NotLoggedIn) <==> !Truthy(sessionUserId))
            && (v == Err(EmptyName) <==> Truthy(sessionUserId) && AllWhitespace(characterName))
            && (v == Err(NoRace) <==> Truthy(sessionUserId) && !AllWhitespace(characterName) && race == "")
            && (v == Err(NoGuild) <==> Truthy(sessionUserId) && !AllWhitespace(characterName) && race != "" && guild == "")
  {
    TrimEmptyIffAllWhitespace(characterName);
  }

  /** `name` is `s` with its surrounding whitespace removed: the non-empty slice of `s` after a
      whitespace prefix and before a whitespace suffix, neither starting nor ending with
      whitespace. */
  predicate IsTrimmedCore(name: string, s: string) {
    var a := |s| - |TrimStart(s)|;
    && name != ""
    && !IsJsWhitespace(name[0]) && !IsJsWhitespace(name[|name| - 1])
    && a + |name| <= |s| && s[a..a + |name|] == name
    && AllWhitespace(s[..a]) && AllWhitespace(s[a + |name|..])
  }

  /** A name that is not all whitespace trims to its whitespace-free core. */
  lemma TrimOfNameIsCore(s: string)
    requires !AllWhitespace(s)
    ensures IsTrimmedCore(Trim(s), s)
  {
    TrimIsCoreSlice(s);
    TrimEmptyIffAllWhitespace(s);
  }

  /** The inserted name is the typed name with its surrounding whitespace removed. */
  lemma InsertedNameIsTrimmed(sessionUserId: Option<string>, characterName: string, race: string, guild: string)
    requires ValidateCreation(sessionUserId, characterName, race, guild).Ok?
    ensures IsTrimmedCore(ValidateCreation(sessionUserId, characterName, race, guild).value.name, characterName)
  {
    CreationAcceptedIff(sessionUserId, characterName, race, guild);
    TrimOfNameIsCore(characterName);
  }

  class CreateCharacterPage {
    var characterName: string
    var race: string
    var guild: string
    var loading: bool

    constructor ()
      ensures characterName == "" && race == "" && guild == "" && !loading
    {
      characterName := "";
      race := "";
      guild := "";
      loading := false;
    }

    /** One submission. `insertReply` is the database's answer to the insert-and-select; it is
        consulted only when the guards pass. `inserted` is the row sent, if any. */
    method HandleCreateCharacter(sessionUserId: Option<string>, insertReply: Reply<seq<Character>>)
      returns (inserted: Option<NewCharacter>, navigateTo: Option<string>, shownError: Option<string>)
      modifies this`loading
      ensures ValidateCreation(sessionUserId, characterName, race, guild).Err?
              ==> var e := ValidateCreation(sessionUserId, characterName, race, guild).error;
                  && inserted.None? && navigateTo.None? && shownError == Some(CreateErrorMessage(e))
                  && loading == old(loading)
      ensures ValidateCreation(sessionUserId, characterName, race, guild).Ok?
              ==> && inserted == Some(ValidateCreation(sessionUserId, characterName, race, guild).value)
                  && !loading
      ensures inserted.Some? && insertReply.error.Some?
              ==> navigateTo.None? && shownError == Some("Error creating character: " + insertReply.error.value.message)
      ensures inserted.Some? && insertReply.error.None?
              ==> shownError.None?
                  && (navigateTo == Some(InventoryPath) <==> insertReply.data.Some? && |insertReply.data.value| > 0)
                  && (navigateTo.None? || navigateTo == Some(InventoryPath))
    {
      var checked := ValidateCreation(sessionUserId, characterName, race, guild);
      if checked.Err? {
        return None, None, Some(CreateErrorMessage(checked.error));
      }
      loading := true;
      inserted := Some(checked.value);
      navigateTo := None;
      shownError := None;
      if insertReply.error.Some? {
        shownError := Some("Error creating character: " + insertReply.error.value.message);
      } else if insertReply.data.Some? && |insertReply.data.value| > 0 {
        navigateTo := Some(InventoryPath);
      }
      loading := false;
    }
  }
}

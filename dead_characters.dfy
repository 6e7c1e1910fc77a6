/** The deceased-characters page: every dead character, each with its owner's
    display name joined in from the profiles. */
module DeadCharacters {
  import opened Js
  import opened Lookup

  const UnknownUser := "Unknown User"

  datatype Profile = Profile(id: string, firstName: Option<string>, lastName: Option<string>)

  /** A row of `dead_characters`. */
  datatype DeadCharacter = DeadCharacter(
    id: string,
    userId: string,
    name: string,
    race: string,
    guild: string,
    branch: string,
    createdAt: string,
    diedAt: string,
    crowns: int,
    pennies: int)

  /** A dead character with the `ownerName` field the page adds. */
  datatype OwnedDeadCharacter = OwnedDeadCharacter(character: DeadCharacter, ownerName: string)

  // ---------------------------------------------------------------------------
  // Display names

  /** `parts.filter(Boolean)` on nullable strings. */
  function Present(parts: seq<Option<string>>): seq<string> {
    if parts == [] then []
    else (if Truthy(parts[0]) then [parts[0].value] else []) + Present(parts[1..])
  }

  /** `parts.join(' ')`. */
  function JoinWithSpaces(parts: seq<string>): string {
    if parts == [] then ""
    else if |parts| == 1 then parts[0]
    else parts[0] + " " + JoinWithSpaces(parts[1..])
  }

  function FullName(p: Profile): string {
    JoinWithSpaces(Present([p.firstName, p.lastName]))
  }

  /** The full name is the non-empty name parts, first then last, separated by one space;
      it is empty exactly when neither part is. */
  lemma FullNameCases(p: Profile)
    ensures Truthy(p.firstName) && Truthy(p.lastName) ==> FullName(p) == p.firstName.value + " " + p.lastName.value
    ensures Truthy(p.firstName) && !Truthy(p.lastName) ==> FullName(p) == p.firstName.value
    ensures !Truthy(p.firstName) && Truthy(p.lastName) ==> FullName(p) == p.lastName.value
    ensures FullName(p) == "" <==> !Truthy(p.firstName) && !Truthy(p.lastName)
  {
    var parts := [p.firstName, p.lastName];
    var first := if Truthy(p.firstName) then [p.firstName.value] else [];
    var last := if Truthy(p.lastName) then [p.lastName.value] else [];
    assert parts[1..] == [p.lastName];
    assert [p.lastName][1..] == [];
    assert Present([p.lastName]) == last;
    assert Present(parts) == first + last;
    if first != [] && last != [] {
      assert (first + last)[1..] == last;
      assert JoinWithSpaces(first + last) == first[0] + " " + JoinWithSpaces(last);
    }
  }

  /** `fullName || 'Unknown User'`: the value `profileMap` holds for a profile. */
  function DisplayName(p: Profile): string {
    OrElse(Some(FullName(p)), UnknownUser)
  }

  /** The `profileMap.set` calls, one per profile, in the order the profiles are visited. */
  function ProfileEntries(profiles: seq<Profile>): (e: seq<(string, string)>)
    ensures |e| == |profiles|
    ensures forall i :: 0 <= i < |profiles| ==> e[i] == (profiles[i].id, DisplayName(profiles[i]))
  {
    seq(|profiles|, i requires 0 <= i < |profiles| => (profiles[i].id, DisplayName(profiles[i])))
  }

  /** The `forEach` that fills `profileMap`. */
  method BuildProfileMap(profiles: seq<Profile>) returns (profileMap: map<string, string>)
    ensures profileMap == LastWins(ProfileEntries(profiles))
  {
    profileMap := map[];
    var i := 0;
    while i < |profiles|
      invariant 0 <= i <= |profiles|
      invariant profileMap == LastWins(ProfileEntries(profiles)[..i])
    {
      var e := ProfileEntries(profiles);
      assert e[..i + 1][..i] == e[..i];
      profileMap := profileMap[profiles[i].id := DisplayName(profiles[i])];
      i := i + 1;
    }
    assert ProfileEntries(profiles)[..i] == ProfileEntries(profiles);
  }

  /** `profileMap.get(character.user_id) || 'Unknown User'`. */
  function OwnerName(profileMap: map<string, string>, userId: string): string {
    OrElse(Get(profileMap, userId), UnknownUser)
  }

  /** The owner shown for a user is the display name of the last profile with that id,
      or "Unknown User" when no profile has it; it is never empty. */
  lemma OwnerIsLastProfile(profiles: seq<Profile>, userId: string)
    ensures OwnerName(LastWins(ProfileEntries(profiles)), userId) != ""
    ensures (forall i :: 0 <= i < |profiles| ==> profiles[i].id != userId)
            ==> OwnerName(LastWins(ProfileEntries(profiles)), userId) == UnknownUser
    ensures forall i :: 0 <= i < |profiles| && profiles[i].id == userId
              && (forall j :: i < j < |profiles| ==> profiles[j].id != userId)
              ==> OwnerName(LastWins(ProfileEntries(profiles)), userId) == DisplayName(profiles[i])
  {
    var e := ProfileEntries(profiles);
    GetLastWins(e, userId);
    if forall i :: 0 <= i < |profiles| ==> profiles[i].id != userId {
      forall i | 0 <= i < |e| ensures e[i].0 != userId { assert e[i].0 == profiles[i].id; }
    }
    forall i | 0 <= i < |profiles| && profiles[i].id == userId && (forall j :: i < j < |profiles| ==> profiles[j].id != userId)
      ensures OwnerName(LastWins(e), userId) == DisplayName(profiles[i])
    {
      assert e[i].0 == userId;
      forall j | i < j < |e| ensures e[j].0 != userId { assert e[j].0 == profiles[j].id; }
    }
  }

  /** `charactersData.map(c => ({ ...c, ownerName }))`. */
  function EnrichWithOwners(chars: seq<DeadCharacter>, profileMap: map<string, string>): seq<OwnedDeadCharacter> {
    seq(|chars|, i requires 0 <= i < |chars| => OwnedDeadCharacter(chars[i], OwnerName(profileMap, chars[i].userId)))
  }

  /** Enrichment keeps every character, in order and unchanged, and gives each the owner
      its user's last profile names, or "Unknown User" without one. */
  lemma EnrichmentKeepsCharacters(chars: seq<DeadCharacter>, profiles: seq<Profile>)
    ensures var shown := EnrichWithOwners(chars, LastWins(ProfileEntries(profiles)));
            && |shown| == |chars|
            && (forall i :: 0 <= i < |chars| ==> shown[i].character == chars[i] && shown[i].ownerName != "")
            && (forall i :: 0 <= i < |chars| && (forall j :: 0 <= j < |profiles| ==> profiles[j].id != chars[i].userId)
                  ==> shown[i].ownerName == UnknownUser)
  {
    forall i | 0 <= i < |chars|
      ensures OwnerName(LastWins(ProfileEntries(profiles)), chars[i].userId) != ""
      ensures (forall j :: 0 <= j < |profiles| ==> profiles[j].id != chars[i].userId)
              ==> OwnerName(LastWins(ProfileEntries(profiles)), chars[i].userId) == UnknownUser
    {
      OwnerIsLastProfile(profiles, chars[i].userId);
    }
  }

  // ---------------------------------------------------------------------------
  // The page

  class DeadCharactersPage {
    var loading: bool
    var deadCharacters: seq<OwnedDeadCharacter>

    constructor ()
      ensures loading && deadCharacters == []
    {
      loading := true;
      deadCharacters := [];
    }

    /** `fetchDeadCharacters`. The two replies are those of the `dead_characters` query
        (newest death first) and of the `profiles` query; the second is consulted only when
        the first succeeded. */
    method FetchDeadCharacters(sessionUserId: Option<string>, charactersReply: Reply<seq<DeadCharacter>>,
                               profilesReply: Reply<seq<Profile>>)
      returns (shownError: Option<string>)
      modifies this
      ensures !loading
      ensures !Truthy(sessionUserId) ==> deadCharacters == old(deadCharacters) && shownError.None?
      ensures Truthy(sessionUserId) && charactersReply.error.Some?
              ==> deadCharacters == []
                  && shownError == Some("Error fetching deceased characters: " + charactersReply.error.value.message)
      ensures Truthy(sessionUserId) && charactersReply.error.None? && profilesReply.error.Some?
              ==> deadCharacters == []
                  && shownError == Some("Error fetching deceased characters: " + profilesReply.error.value.message)
      ensures Truthy(sessionUserId) && charactersReply.error.None? && profilesReply.error.None?
              ==> shownError.None?
                  && deadCharacters == EnrichWithOwners(charactersReply.data.GetOr([]),
                                                        LastWins(ProfileEntries(profilesReply.data.GetOr([]))))
    {
      shownError := None;
      if !Truthy(sessionUserId) {
        loading := false;
        return;
      }
      if charactersReply.error.Some? {
        shownError := Some("Error fetching deceased characters: " + charactersReply.error.value.message);
        deadCharacters := [];
      } else if profilesReply.error.Some? {
        shownError := Some("Error fetching deceased characters: " + profilesReply.error.value.message);
        deadCharacters := [];
      } else {
        var profileMap := BuildProfileMap(profilesReply.data.GetOr([]));
        deadCharacters := EnrichWithOwners(charactersReply.data.GetOr([]), profileMap);
      }
      loading := false;
    }
  }
}

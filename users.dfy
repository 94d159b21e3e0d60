/** The value-level rules of src/db/user.ts: the nickname validator and the rows it writes. */
module Users {
  import opened Base
  import opened Schema

  /** `countGrapheme` of the unicode-segmenter library, taken as given. */
  type Graphemes = string -> nat

  const NicknameMaxGraphemes: nat := 32
  const NicknameMaxLength: nat := 320

  /** The `social.psky.actor.profile` record; `nickname` is whatever the record carried. */
  datatype Profile = Profile(nickname: Field<string>)

  /** `user.profile?.nickname`: absent when there is no profile. */
  function NicknameOf(profile: Option<Profile>): (nickname: Field<string>)
    ensures nickname.Missing? <==> profile.None? || profile.value.nickname.Missing?
    ensures profile.Some? ==> nickname == profile.value.nickname
  {
    match profile
    case None => Missing
    case Some(p) => p.nickname
  }

  /**
   * `validateNickname`: the nickname itself when it is a non-empty string of at most
   * 32 graphemes and at most 320 code units, otherwise null (so an absent nickname,
   * an explicit null and the empty string all become null).
   */
  function ValidateNickname(graphemes: Graphemes, nickname: Field<string>): (r: Option<string>)
    ensures r.Some? <==> && nickname.Value?
                         && nickname.value != ""
                         && graphemes(nickname.value) <= NicknameMaxGraphemes
                         && |nickname.value| <= NicknameMaxLength
    ensures r.Some? ==> r.value == nickname.value
  {
    if nickname.Value? && nickname.value != ""
       && graphemes(nickname.value) <= NicknameMaxGraphemes && |nickname.value| <= NicknameMaxLength
    then Some(nickname.value)
    else None
  }

  /** A nickname that passed validation passes it again unchanged. */
  lemma ValidateNicknameIdempotent(graphemes: Graphemes, nickname: Field<string>)
    requires ValidateNickname(graphemes, nickname).Some?
    ensures ValidateNickname(graphemes, Value(ValidateNickname(graphemes, nickname).value))
            == ValidateNickname(graphemes, nickname)
  {
  }

  /**
   * The row `addUser` inserts: the handle the resolver returned, the profile's
   * nickname as sent (not validated; null when absent), `active` left to its
   * default of true.
   */
  function NewUser(did: string, handle: string, profile: Option<Profile>, now: int): (r: UserRow)
    ensures r.did == did && r.handle == handle && r.updatedAt == now
    ensures r.active
    ensures r.nickname.Some? <==> NicknameOf(profile).Value?
    ensures r.nickname.Some? ==> r.nickname.value == NicknameOf(profile).value
  {
    UserRow(did, handle, true, OrNull(NicknameOf(profile)), now)
  }

  /** The row after `updateUser`'s UPDATE: only `nickname` and `updated_at` are set. */
  function Refreshed(row: UserRow, graphemes: Graphemes, profile: Option<Profile>, now: int): (r: UserRow)
    ensures r.did == row.did && r.handle == row.handle && r.active == row.active
    ensures r.nickname == ValidateNickname(graphemes, NicknameOf(profile)) && r.updatedAt == now
    ensures profile.None? ==> r.nickname.None?
  {
    row.(nickname := ValidateNickname(graphemes, NicknameOf(profile)), updatedAt := now)
  }

  /**
   * A row `addUser` inserted with an out-of-bounds nickname keeps it only until the
   * UPDATE that follows in `updateUser`, which stores the validated value.
   */
  lemma RefreshedAfterInsertValidates(did: string, handle: string, graphemes: Graphemes, profile: Option<Profile>, now: int, later: int)
    ensures var row := Refreshed(NewUser(did, handle, profile, now), graphemes, profile, later);
            && (row.nickname.Some? ==>
                  graphemes(row.nickname.value) <= NicknameMaxGraphemes && |row.nickname.value| <= NicknameMaxLength)
            && row.handle == handle && row.active
  {
  }
}

/**
 * A participant's profile row (`struct ProfileModel`) with its hand-written
 * coding: `id`, `full_name` and `email` are required, the other four fields
 * optional, and `id` is normalised to canonical UUID text.
 */
module Profiles {
  import opened Wrappers
  import opened Uuids
  import opened Keyed

  datatype ProfileModel = ProfileModel(
    id: string,
    full_name: string,
    email: string,
    password: Option<string>,
    avatar_url: Option<string>,
    created_at: Option<string>,
    updated_at: Option<string>)

  const RequiredKeys: set<string> := {"id", "full_name", "email"}
  const OptionalKeys: set<string> := {"password", "avatar_url", "created_at", "updated_at"}

  /** `id` holds canonical UUID text, as in every decoded profile. */
  predicate WellFormed(p: ProfileModel) {
    IsCanonical(p.id)
  }

  /** `uuidId`: the UUID of `id`, or the fresh `fallback` when `id` is not UUID text. */
  function UuidId(p: ProfileModel, fallback: Uuid): (u: Uuid)
    ensures WellFormed(p) ==> UuidString(u) == p.id
  {
    UuidOr(p.id, fallback)
  }

  /** `ProfileModel.init(from:)` */
  function Decode(rec: Record): (r: Result<ProfileModel, DecodingError>)
    ensures r.Success? ==> RequiredKeys <= rec.Keys
    ensures r.Success? ==>
      DecodeUuid(rec, "id").Success? && r.value.id == UuidString(DecodeUuid(rec, "id").value)
  {
    var uuidId :- DecodeUuid(rec, "id");
    var fullName :- DecodeString(rec, "full_name");
    var email :- DecodeString(rec, "email");
    var password :- DecodeStringIfPresent(rec, "password");
    var avatarUrl :- DecodeStringIfPresent(rec, "avatar_url");
    var createdAt :- DecodeStringIfPresent(rec, "created_at");
    var updatedAt :- DecodeStringIfPresent(rec, "updated_at");
    Success(ProfileModel(UuidString(uuidId), fullName, email, password, avatarUrl, createdAt, updatedAt))
  }

  /** `ProfileModel.encode(to:)`; `idFallback` stands for the fresh `UUID()` used when `id` is not UUID text. */
  function Encode(p: ProfileModel, idFallback: Uuid): (r: Record)
    ensures RequiredKeys <= r.Keys <= RequiredKeys + OptionalKeys
  {
    var rec := EncodeUuid(map[], "id", UuidOr(p.id, idFallback));
    var rec := EncodeString(rec, "full_name", p.full_name);
    var rec := EncodeString(rec, "email", p.email);
    var rec := EncodeStringIfPresent(rec, "password", p.password);
    var rec := EncodeStringIfPresent(rec, "avatar_url", p.avatar_url);
    var rec := EncodeStringIfPresent(rec, "created_at", p.created_at);
    EncodeStringIfPresent(rec, "updated_at", p.updated_at)
  }

  /** Every successfully decoded profile is well formed. */
  lemma DecodedIsWellFormed(rec: Record)
    requires Decode(rec).Success?
    ensures WellFormed(Decode(rec).value)
  {
    UuidStringIsCanonical(ParseUuid(rec["id"].str).value);
  }

  /** The required fields `Encode` writes read back as the values written. */
  lemma EncodedRequiredFields(p: ProfileModel, idFallback: Uuid)
    ensures var rec := Encode(p, idFallback);
      && DecodeUuid(rec, "id") == Success(UuidOr(p.id, idFallback))
      && DecodeString(rec, "full_name") == Success(p.full_name)
      && DecodeString(rec, "email") == Success(p.email)
  {
    ParseUuidString(UuidOr(p.id, idFallback));
  }

  /** Each optional field is written only when present, and reads back as it was. */
  lemma EncodedOptionalFields(p: ProfileModel, idFallback: Uuid)
    ensures var rec := Encode(p, idFallback);
      && DecodeStringIfPresent(rec, "password") == Success(p.password)
      && DecodeStringIfPresent(rec, "avatar_url") == Success(p.avatar_url)
      && DecodeStringIfPresent(rec, "created_at") == Success(p.created_at)
      && DecodeStringIfPresent(rec, "updated_at") == Success(p.updated_at)
      && ("password" in rec <==> p.password.Some?)
      && ("avatar_url" in rec <==> p.avatar_url.Some?)
      && ("created_at" in rec <==> p.created_at.Some?)
      && ("updated_at" in rec <==> p.updated_at.Some?)
  {
  }

  /**
   * Encoding then decoding keeps `full_name`, `email` and each optional field,
   * present or absent; `id` comes back as the canonical text of what was written.
   */
  lemma EncodeDecodePassThrough(p: ProfileModel, idFallback: Uuid)
    ensures var r := Decode(Encode(p, idFallback));
      && r.Success?
      && r.value.id == UuidString(UuidOr(p.id, idFallback))
      && r.value.(id := p.id) == p
  {
    EncodedRequiredFields(p, idFallback);
    EncodedOptionalFields(p, idFallback);
  }

  /** A well-formed profile decodes back to itself, whatever the fallback. */
  lemma RoundTrip(p: ProfileModel, idFallback: Uuid)
    requires WellFormed(p)
    ensures Decode(Encode(p, idFallback)) == Success(p)
  {
    EncodeDecodePassThrough(p, idFallback);
  }

  /** Re-encoding a decoded profile reproduces its id, whichever fallback is drawn. */
  lemma ReencodeDecoded(rec: Record, f: Uuid, g: Uuid)
    requires Decode(rec).Success?
    ensures Encode(Decode(rec).value, f) == Encode(Decode(rec).value, g)
    ensures Decode(Encode(Decode(rec).value, f)) == Decode(rec)
  {
    DecodedIsWellFormed(rec);
    RoundTrip(Decode(rec).value, f);
  }

  /** A row missing `id`, `full_name` or `email` does not decode. */
  lemma MissingRequiredKey(rec: Record, key: string)
    requires key in RequiredKeys && key !in rec
    ensures Decode(rec).Failure?
  {
  }

  /** A row missing an optional key decodes exactly as if that field were null. */
  lemma MissingOptionalKey(rec: Record, key: string)
    requires key in OptionalKeys && Decode(rec).Success?
    ensures var p := Decode(rec).value;
      Decode(rec - {key}) == Success(
        if key == "password" then p.(password := None)
        else if key == "avatar_url" then p.(avatar_url := None)
        else if key == "created_at" then p.(created_at := None)
        else p.(updated_at := None))
  {
    var r' := rec - {key};
    assert forall k | k != key :: k in r' <==> k in rec;
    assert forall k | k != key && k in rec :: r'[k] == rec[k];
  }
}

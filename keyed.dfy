/**
 * The JSON values the store sends and receives, and the keyed container
 * operations that `Codable` types use on them (`decode`, `decodeIfPresent`,
 * `encode`, `encodeIfPresent`) as `JSONDecoder` and `JSONEncoder` perform them.
 */
module Keyed {
  import opened Wrappers
  import opened Uuids

  datatype Json =
    | JNull
    | JBool(b: bool)
    | JNumber(n: int)
    | JString(str: string)
    | JArray(items: seq<Json>)
    | JObject(fields: map<string, Json>)

  /** A keyed container: one JSON object's fields. */
  type Record = map<string, Json>

  /** Why a decode threw; `key` is the coding key involved ("" for the top level). */
  datatype DecodingError =
    | KeyNotFound(key: string)
    | ValueNotFound(key: string)
    | TypeMismatch(key: string)
    | DataCorrupted(key: string)

  /** The bytes of a response body, as the store returned them. */
  datatype Body = EmptyBody | JsonBody(value: Json) | UnparsableBody

  /** `try container.decode(String.self, forKey: key)` */
  function DecodeString(rec: Record, key: string): (r: Result<string, DecodingError>)
    ensures r.Success? <==> key in rec && rec[key].JString?
    ensures r.Success? ==> r.value == rec[key].str
    ensures key !in rec ==> r == Failure(KeyNotFound(key))
  {
    if key !in rec then Failure(KeyNotFound(key))
    else match rec[key]
      case JString(s) => Success(s)
      case JNull => Failure(ValueNotFound(key))
      case _ => Failure(TypeMismatch(key))
  }

  /** `try container.decodeIfPresent(String.self, forKey: key)`: nil when absent or null. */
  function DecodeStringIfPresent(rec: Record, key: string): (r: Result<Option<string>, DecodingError>)
    ensures key !in rec ==> r == Success(None)
    ensures r.Success? <==> key !in rec || rec[key].JNull? || rec[key].JString?
    ensures key in rec && rec[key].JString? ==> r == Success(Some(rec[key].str))
  {
    if key !in rec then Success(None)
    else match rec[key]
      case JNull => Success(None)
      case JString(s) => Success(Some(s))
      case _ => Failure(TypeMismatch(key))
  }

  /** `try container.decode(Bool.self, forKey: key)` */
  function DecodeBool(rec: Record, key: string): (r: Result<bool, DecodingError>)
    ensures r.Success? <==> key in rec && rec[key].JBool?
    ensures r.Success? ==> r.value == rec[key].b
    ensures key !in rec ==> r == Failure(KeyNotFound(key))
  {
    if key !in rec then Failure(KeyNotFound(key))
    else match rec[key]
      case JBool(b) => Success(b)
      case JNull => Failure(ValueNotFound(key))
      case _ => Failure(TypeMismatch(key))
  }

  /** `try container.decode(UUID.self, forKey: key)`: a string that `UUID(uuidString:)` accepts. */
  function DecodeUuid(rec: Record, key: string): (r: Result<Uuid, DecodingError>)
    ensures r.Success? <==> key in rec && rec[key].JString? && ParseUuid(rec[key].str).Some?
    ensures r.Success? ==> Some(r.value) == ParseUuid(rec[key].str)
    ensures key !in rec ==> r == Failure(KeyNotFound(key))
  {
    var s :- DecodeString(rec, key);
    match ParseUuid(s)
    case Some(u) => Success(u)
    case None => Failure(DataCorrupted(key))
  }

  /** `container.encode(v, forKey: key)` for a string. */
  function EncodeString(rec: Record, key: string, v: string): Record {
    rec[key := JString(v)]
  }

  /** `container.encodeIfPresent(v, forKey: key)`: writes nothing for nil. */
  function EncodeStringIfPresent(rec: Record, key: string, v: Option<string>): Record {
    match v
    case Some(s) => rec[key := JString(s)]
    case None => rec
  }

  /** `container.encode(v, forKey: key)` for a Boolean. */
  function EncodeBool(rec: Record, key: string, v: bool): Record {
    rec[key := JBool(v)]
  }

  /** `container.encode(u, forKey: key)` for a UUID: its `uuidString`. */
  function EncodeUuid(rec: Record, key: string, u: Uuid): Record {
    rec[key := JString(UuidString(u))]
  }

  /** A UUID written by `EncodeUuid` decodes to the same UUID. */
  lemma DecodeEncodedUuid(rec: Record, key: string, u: Uuid)
    ensures DecodeUuid(EncodeUuid(rec, key, u), key) == Success(u)
  {
    ParseUuidString(u);
  }

  /** An optional string written by `EncodeStringIfPresent` over an absent key decodes to itself. */
  lemma DecodeEncodedOptional(rec: Record, key: string, v: Option<string>)
    requires key !in rec
    ensures DecodeStringIfPresent(EncodeStringIfPresent(rec, key, v), key) == Success(v)
    ensures key in EncodeStringIfPresent(rec, key, v) <==> v.Some?
  {
  }

  /**
   * `JSONDecoder().decode(T.self, from: body)` for a keyed type `T`: the body
   * must be a JSON object, which `decodeFields` then reads.
   */
  function DecodeObject<T>(body: Body, decodeFields: Record -> Result<T, DecodingError>): (r: Result<T, DecodingError>)
    ensures !body.JsonBody? ==> r == Failure(DataCorrupted(""))
    ensures body.JsonBody? && body.value.JObject? ==> r == decodeFields(body.value.fields)
  {
    match body
    case JsonBody(JObject(fields)) => decodeFields(fields)
    case JsonBody(_) => Failure(TypeMismatch(""))
    case _ => Failure(DataCorrupted(""))
  }

  /** Decodes each element of a JSON array as an object, failing on the first that does not decode. */
  function DecodeEach<T>(items: seq<Json>, decodeFields: Record -> Result<T, DecodingError>): (r: Result<seq<T>, DecodingError>)
    ensures r.Success? ==> |r.value| == |items|
    ensures r.Success? ==> forall i | 0 <= i < |items| ::
      items[i].JObject? && decodeFields(items[i].fields) == Success(r.value[i])
    ensures (forall i | 0 <= i < |items| :: items[i].JObject? && decodeFields(items[i].fields).Success?)
      ==> r.Success?
  {
    if items == [] then Success([])
    else
      var head :- (match items[0]
        case JObject(fields) => decodeFields(fields)
        case _ => Failure(TypeMismatch("")));
      var tail :- DecodeEach(items[1..], decodeFields);
      Success([head] + tail)
  }

  /** `JSONDecoder().decode([T].self, from: body)` */
  function DecodeArray<T>(body: Body, decodeFields: Record -> Result<T, DecodingError>): (r: Result<seq<T>, DecodingError>)
    ensures !body.JsonBody? ==> r.Failure?
    ensures body.JsonBody? && body.value.JArray? ==> r == DecodeEach(body.value.items, decodeFields)
  {
    match body
    case JsonBody(JArray(items)) => DecodeEach(items, decodeFields)
    case JsonBody(_) => Failure(TypeMismatch(""))
    case _ => Failure(DataCorrupted(""))
  }
}

/** The token vocabulary shared by the JSON reader and writer. */
module JsonTokens {
  import opened Base

  /** JsonToken of src/base/json_reader.h */
  datatype JsonToken =
    | NoToken
    | StartArrayToken
    | EndArrayToken
    | StartObjectToken
    | EndObjectToken
    | PropertyNameToken
    | StringToken
    | IntegerToken
    | FloatToken
    | BooleanToken
    | NullToken

  /** A token together with the value a client can read for it. A number also carries its text,
      because JsonReader leaves it in `str_value_`. */
  datatype Event =
    | StartArray
    | EndArray
    | StartObject
    | EndObject
    | PropertyName(str: bytes)
    | String(str: bytes)
    | Integer(num: int, text: bytes)
    | Float(text: bytes)
    | Boolean(flag: bool)
    | Null

  function TokenOf(e: Event): JsonToken {
    match e
    case StartArray => StartArrayToken
    case EndArray => EndArrayToken
    case StartObject => StartObjectToken
    case EndObject => EndObjectToken
    case PropertyName(_) => PropertyNameToken
    case String(_) => StringToken
    case Integer(_, _) => IntegerToken
    case Float(_) => FloatToken
    case Boolean(_) => BooleanToken
    case Null => NullToken
  }

  predicate IsSpace(c: int) {
    c == ' ' as int || c == '\n' as int || c == '\r' as int || c == '\t' as int
  }

  const INT64_MIN: int := -0x8000_0000_0000_0000
  const INT64_MAX: int := 0x7fff_ffff_ffff_ffff
  type int64 = x: int | INT64_MIN <= x <= INT64_MAX
}

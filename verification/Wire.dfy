/** The wire format on byte sequences: varints, tags, fields, unknown fields and groups,
    as the parser of the generated messages reads them. */
module Wire {
  import opened Options
  import opened Numbers

  type Byte = x: int | 0 <= x < 256
  type Bytes = seq<Byte>

  /** The longest varint the parser accepts. */
  const MAX_VARINT_BYTES: nat := 10

  /** Outcome of reading one item: a value and the bytes after it. */
  datatype Read<+T> = Fail | Got(value: T, rest: Bytes)

  datatype UnknownField =
    | Varint(number: nat, varint: nat)
    | Fixed64(number: nat, fixed64: nat)
    | LengthDelimited(number: nat, bytes: Bytes)
    | Group(number: nat, fields: seq<UnknownField>)
    | Fixed32(number: nat, fixed32: nat)

  /** What a message's parser does on a tag it knows. */
  datatype Action =
    | ReadScalar(number: nat, modulus: nat)
    | ReadDouble(number: nat)
    | ReadElement(number: nat)
    | ReadPacked(number: nat)
    | ReadMessage(number: nat, schema: Schema)

  /** The known tags of a message type; all of them are single bytes. */
  datatype Schema = Schema(actions: map<nat, Action>)

  /** One field as read off the wire. */
  datatype Field =
    | Scalar(number: nat, value: nat)
    | Elements(number: nat, values: seq<nat>)
    | Message(number: nat, fields: seq<Field>)
    | Unknown(unknown: UnknownField)

  // ---------------------------------------------------------------- primitives

  function EncodeVarint(v: nat): (s: Bytes)
    ensures |s| >= 1
  {
    if v < 128 then [v] else [v % 128 + 128] + EncodeVarint(v / 128)
  }

  /** The number spelled by a varint of at most `budget` bytes, before it is cut to 32 or 64 bits. */
  function DecodeVarint(s: Bytes, budget: nat): (r: Read<nat>)
    ensures r.Got? ==> |r.rest| < |s|
  {
    if s == [] || budget == 0 then Fail
    else if s[0] < 128 then Got(s[0], s[1..])
    else match DecodeVarint(s[1..], budget - 1)
      case Fail => Fail
      case Got(v, rest) => Got(s[0] - 128 + 128 * v, rest)
  }

  function ReadVarint(s: Bytes, modulus: nat): (r: Read<nat>)
    requires modulus > 0
    ensures r.Got? ==> |r.rest| < |s| && r.value < modulus
  {
    match DecodeVarint(s, MAX_VARINT_BYTES)
    case Fail => Fail
    case Got(v, rest) => Got(v % modulus, rest)
  }

  /** A length prefix: the full 64-bit value, refused when it is not a non-negative `int`. */
  function ReadSize(s: Bytes): (r: Read<nat>)
    ensures r.Got? ==> |r.rest| < |s|
  {
    match ReadVarint(s, TWO_TO_64)
    case Fail => Fail
    case Got(v, rest) => if v < TWO_TO_31 then Got(v, rest) else Fail
  }

  function EncodeFixed(v: nat, n: nat): (s: Bytes)
    ensures |s| == n
  {
    if n == 0 then [] else [v % 256] + EncodeFixed(v / 256, n - 1)
  }

  function DecodeFixed(s: Bytes): nat {
    if s == [] then 0 else s[0] + 256 * DecodeFixed(s[1..])
  }

  function ReadFixed(s: Bytes, n: nat): (r: Read<nat>)
    ensures r.Got? && n > 0 ==> |r.rest| < |s|
  {
    if |s| < n then Fail else Got(DecodeFixed(s[..n]), s[n..])
  }

  /** Varints up to the end of `s`. */
  function ReadAllVarints(s: Bytes): Option<seq<nat>>
    decreases |s|
  {
    if s == [] then Some([])
    else match ReadVarint(s, TWO_TO_32)
      case Fail => None
      case Got(v, rest) =>
        match ReadAllVarints(rest)
        case None => None
        case Some(vs) => Some([v] + vs)
  }

  // ---------------------------------------------------------------- unknown fields

  function ReadUnknown(tag: nat, s: Bytes, depth: nat): (r: Read<UnknownField>)
    ensures r.Got? ==> |r.rest| <= |s|
    decreases |s|, 1
  {
    var number := tag / 8;
    if number == 0 then Fail
    else if tag % 8 == 0 then
      match ReadVarint(s, TWO_TO_64)
      case Fail => Fail
      case Got(v, rest) => Got(Varint(number, v), rest)
    else if tag % 8 == 1 then
      match ReadFixed(s, 8)
      case Fail => Fail
      case Got(v, rest) => Got(Fixed64(number, v), rest)
    else if tag % 8 == 2 then
      match ReadVarint(s, TWO_TO_32)
      case Fail => Fail
      case Got(n, rest) =>
        if n < TWO_TO_31 && n <= |rest| then Got(LengthDelimited(number, rest[..n]), rest[n..]) else Fail
    else if tag % 8 == 3 then
      if depth == 0 then Fail
      else match ReadGroup(number, s, depth - 1)
        case Fail => Fail
        case Got(fields, rest) => Got(Group(number, fields), rest)
    else if tag % 8 == 5 then
      match ReadFixed(s, 4)
      case Fail => Fail
      case Got(v, rest) => Got(Fixed32(number, v), rest)
    else Fail
  }

  /** Fields up to the end-group tag of `number`. */
  function ReadGroup(number: nat, s: Bytes, depth: nat): (r: Read<seq<UnknownField>>)
    ensures r.Got? ==> |r.rest| <= |s|
    decreases |s|, 0
  {
    match ReadVarint(s, TWO_TO_32)
    case Fail => Fail
    case Got(tag, rest) =>
      if tag == 0 then Fail
      else if tag % 8 == 4 then (if tag == number * 8 + 4 then Got([], rest) else Fail)
      else match ReadUnknown(tag, rest, depth)
        case Fail => Fail
        case Got(field, rest') =>
          match ReadGroup(number, rest', depth)
          case Fail => Fail
          case Got(fields, rest'') => Got([field] + fields, rest'')
  }

  // ---------------------------------------------------------------- messages

  /** A length-delimited body of a known field. A prefix that runs past the end of the
      enclosing message is not enforced: the body is then everything that is left. */
  function ReadBody(s: Bytes): (r: Read<Bytes>)
    ensures r.Got? ==> |r.value| < |s| && |r.rest| < |s|
  {
    match ReadSize(s)
    case Fail => Fail
    case Got(n, rest) => Got(rest[..Min(n, |rest|)], rest[Min(n, |rest|)..])
  }

  function ReadKnown(action: Action, s: Bytes, depth: nat): (r: Read<Field>)
    requires action.ReadScalar? ==> action.modulus > 0
    requires action.ReadMessage? ==> WellFormed(action.schema)
    ensures r.Got? ==> |r.rest| <= |s|
    decreases |s|, 0
  {
    match action
    case ReadScalar(number, modulus) =>
      (match ReadVarint(s, modulus)
       case Fail => Fail
       case Got(v, rest) => Got(Scalar(number, v), rest))
    case ReadDouble(number) =>
      (match ReadFixed(s, 8)
       case Fail => Fail
       case Got(v, rest) => Got(Scalar(number, v), rest))
    case ReadElement(number) =>
      (match ReadVarint(s, TWO_TO_32)
       case Fail => Fail
       case Got(v, rest) => Got(Elements(number, [v]), rest))
    case ReadPacked(number) =>
      (match ReadBody(s)
       case Fail => Fail
       case Got(body, rest) =>
         match ReadAllVarints(body)
         case None => Fail
         case Some(vs) => Got(Elements(number, vs), rest))
    case ReadMessage(number, schema) =>
      (match ReadBody(s)
       case Fail => Fail
       case Got(body, rest) =>
         if depth == 0 then Fail
         else match Parse(schema, body, depth - 1)
           case None => Fail
           case Some(fields) => Got(Message(number, fields), rest))
  }

  predicate WellFormed(schema: Schema) {
    forall tag | tag in schema.actions ::
      && 8 <= tag < 120
      && (schema.actions[tag].ReadScalar? ==> schema.actions[tag].modulus > 0)
      && (schema.actions[tag].ReadMessage? ==> WellFormed(schema.actions[tag].schema))
  }

  /** One tag and its field. */
  function ReadField(schema: Schema, s: Bytes, depth: nat): (r: Read<Field>)
    requires WellFormed(schema)
    ensures r.Got? ==> |r.rest| < |s|
    decreases |s|, 1
  {
    match ReadVarint(s, TWO_TO_32)
    case Fail => Fail
    case Got(tag, rest) =>
      if tag == 0 then Fail
      else if tag in schema.actions then ReadKnown(schema.actions[tag], rest, depth)
      else match ReadUnknown(tag, rest, depth)
        case Fail => Fail
        case Got(field, rest') => Got(Unknown(field), rest')
  }

  /** Everything in `s` as the fields of one message; `None` when the parser refuses `s`. */
  function Parse(schema: Schema, s: Bytes, depth: nat): Option<seq<Field>>
    requires WellFormed(schema)
    decreases |s|, 2
  {
    if s == [] then Some([])
    else match ReadField(schema, s, depth)
      case Fail => None
      case Got(field, rest) =>
        match Parse(schema, rest, depth)
        case None => None
        case Some(fields) => Some([field] + fields)
  }
}

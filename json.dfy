/** Decoded JSON values and the field-reading rules serde's derived
    `Deserialize` applies to the engine's records. Turning JSON text into a
    `Json` value is not part of this model. */
module JsonValue {
  import opened Wrappers
  import opened Text
  import opened NumericField

  /** A JSON value. Objects are maps: a key's value is what serde reads for
      that field. `Float` is any number that is not an integer. */
  datatype Json =
    | Null
    | Bool(b: bool)
    | Number(n: int)
    | Float
    | Str(s: string)
    | Arr(items: seq<Json>)
    | Obj(fields: map<string, Json>)

  /** Why a value does not decode as a record. */
  datatype DecodeError =
    | NotAnArray
    | NotARecord        // neither an object nor an array
    | MissingField(field: string)
    | WrongType(field: string)
    | BadNumber(field: string, reason: ReadError)
    | InvalidLength(found: nat)
    | TrailingElements
  {
    /** The text of the error, in serde's words (serde adds a position). */
    function Message(): string
    {
      match this
      case NotAnArray => "invalid type: expected a sequence"
      case NotARecord => "invalid type: expected a struct"
      case MissingField(f) => "missing field `" + f + "`"
      case WrongType(f) => "invalid type for field `" + f + "`"
      case BadNumber(_, reason) => reason.Message()
      case InvalidLength(n) => "invalid length " + NatToString(n) + ", expected a struct"
      case TrailingElements => "trailing characters"
    }
  }

  /** The view of a JSON value a numeric-or-string reader works on. */
  function ScalarOf(v: Json): (r: JsonScalar)
    ensures v.Null? <==> r == JNull
    ensures v.Str? <==> r.JString?
    ensures v.Number? <==> r.JNumber?
  {
    match v
    case Null => JNull
    case Str(s) => JString(s)
    case Number(n) => JNumber(n)
    case _ => JOther
  }

  // ---------------------------------------------------------------------------
  // Reading one value: the same rules for a value found under a key of an
  // object and for an element of a record written as an array

  /** A `String` value. */
  function TextValue(name: string, v: Json): (r: Result<string, DecodeError>)
    ensures r.Success? <==> v.Str?
    ensures r.Success? ==> r.value == v.s
    ensures r.Failure? ==> r.error == WrongType(name)
  {
    if v.Str? then Success(v.s) else Failure(WrongType(name))
  }

  /** An `Option<String>` value: null is `None`. */
  function OptionalTextValue(name: string, v: Json): (r: Result<Option<string>, DecodeError>)
    ensures r == Success(None) <==> v.Null?
    ensures r.Success? && r.value.Some? <==> v.Str?
    ensures r.Success? && r.value.Some? ==> r.value.value == v.s
  {
    if v.Null? then Success(None)
    else if v.Str? then Success(Some(v.s))
    else Failure(WrongType(name))
  }

  /** A value read by one of the numeric-or-string readers, with bound `max`. */
  function NumberValue(name: string, v: Json, max: nat): (r: Result<Option<nat>, DecodeError>)
    ensures match ReadOptionalUnsigned(ScalarOf(v), max)
            case Success(n) => r == Success(n)
            case Failure(e) => r == Failure(BadNumber(name, e))
    ensures r.Success? && r.value.Some? ==> r.value.value <= max
  {
    match ReadOptionalUnsigned(ScalarOf(v), max)
    case Success(n) => Success(n)
    case Failure(e) => Failure(BadNumber(name, e))
  }

  // ---------------------------------------------------------------------------
  // A record written as an object. serde reads the entries it finds first
  // (a value of the wrong type stops it there), and only afterwards looks for
  // the fields it did not find. `...At` is the first step: `None` for a key
  // that is not there; `Required` is the second.

  function TextAt(fields: map<string, Json>, name: string): (r: Result<Option<string>, DecodeError>)
    ensures r == Success(None) <==> name !in fields
    ensures name in fields ==> (r.Success? <==> fields[name].Str?)
  {
    if name !in fields then Success(None)
    else
      var s :- TextValue(name, fields[name]);
      Success(Some(s))
  }

  function OptionalTextAt(fields: map<string, Json>, name: string): (r: Result<Option<Option<string>>, DecodeError>)
    ensures r == Success(None) <==> name !in fields
    ensures name in fields ==> (r.Success? <==> OptionalTextValue(name, fields[name]).Success?)
  {
    if name !in fields then Success(None)
    else
      var o :- OptionalTextValue(name, fields[name]);
      Success(Some(o))
  }

  function NumberAt(fields: map<string, Json>, name: string, max: nat): (r: Result<Option<Option<nat>>, DecodeError>)
    ensures r == Success(None) <==> name !in fields
    ensures name in fields ==> (r.Success? <==> NumberValue(name, fields[name], max).Success?)
    ensures r.Success? && r.value.Some? && r.value.value.Some? ==> r.value.value.value <= max
  {
    if name !in fields then Success(None)
    else
      var n :- NumberValue(name, fields[name], max);
      Success(Some(n))
  }

  /** A field that was not found and has no default is missing. */
  function Required<T>(found: Option<T>, name: string): (r: Result<T, DecodeError>)
    ensures r.Success? <==> found.Some?
    ensures r.Success? ==> r.value == found.value
    ensures r.Failure? ==> r.error == MissingField(name)
  {
    if found.Some? then Success(found.value) else Failure(MissingField(name))
  }

  /** What a `String` field of an object comes to: it must be there and be
      a string. */
  function RequiredString(fields: map<string, Json>, name: string): (r: Result<string, DecodeError>)
    ensures r.Success? <==> name in fields && fields[name].Str?
    ensures r.Success? ==> r.value == fields[name].s
    ensures name !in fields ==> r == Failure(MissingField(name))
  {
    var found :- TextAt(fields, name);
    Required(found, name)
  }

  /** What an `Option<String>` field of an object comes to: absent or null is
      `None` (serde treats a missing `Option` as `None`). */
  function OptionalString(fields: map<string, Json>, name: string): (r: Result<Option<string>, DecodeError>)
    ensures r == Success(None) <==> name !in fields || fields[name].Null?
    ensures r.Success? && r.value.Some? <==> name in fields && fields[name].Str?
    ensures r.Success? && r.value.Some? ==> r.value.value == fields[name].s
  {
    var found :- OptionalTextAt(fields, name);
    Success(if found.Some? then found.value else None)
  }

  /** What a numeric-or-string field of an object comes to. A field marked
      `#[serde(default)]` may be absent (`None`); one without it is required,
      so that its absence is an error. */
  function NumericOrString(fields: map<string, Json>, name: string, max: nat, hasDefault: bool)
    : (r: Result<Option<nat>, DecodeError>)
    ensures name !in fields ==> r == (if hasDefault then Success(None) else Failure(MissingField(name)))
    ensures name in fields ==>
      match ReadOptionalUnsigned(ScalarOf(fields[name]), max)
      case Success(n) => r == Success(n)
      case Failure(e) => r == Failure(BadNumber(name, e))
    ensures r.Success? && r.value.Some? ==> r.value.value <= max
  {
    var found :- NumberAt(fields, name, max);
    if found.Some? then Success(found.value)
    else if hasDefault then Success(None)
    else Failure(MissingField(name))
  }

  // ---------------------------------------------------------------------------
  // A record written as an array: serde's derived `Deserialize` also accepts
  // the fields' values in declaration order. An element that is not there
  // is the field's default if it has `#[serde(default)]`, and otherwise an
  // invalid-length error that carries the field's position, the number of
  // elements read so far; elements past the last field are an error once
  // every field has been read.

  function TextElement(items: seq<Json>, i: nat, name: string): (r: Result<string, DecodeError>)
    ensures i < |items| ==> r == TextValue(name, items[i])
    ensures i >= |items| ==> r == Failure(InvalidLength(i))
  {
    if i < |items| then TextValue(name, items[i]) else Failure(InvalidLength(i))
  }

  function OptionalTextElement(items: seq<Json>, i: nat, name: string, hasDefault: bool)
    : (r: Result<Option<string>, DecodeError>)
    ensures i < |items| ==> r == OptionalTextValue(name, items[i])
    ensures i >= |items| ==> r == (if hasDefault then Success(None) else Failure(InvalidLength(i)))
  {
    if i < |items| then OptionalTextValue(name, items[i])
    else if hasDefault then Success(None)
    else Failure(InvalidLength(i))
  }

  function NumberElement(items: seq<Json>, i: nat, name: string, max: nat, hasDefault: bool)
    : (r: Result<Option<nat>, DecodeError>)
    ensures i < |items| ==> r == NumberValue(name, items[i], max)
    ensures i >= |items| ==> r == (if hasDefault then Success(None) else Failure(InvalidLength(i)))
    ensures r.Success? && r.value.Some? ==> r.value.value <= max
  {
    if i < |items| then NumberValue(name, items[i], max)
    else if hasDefault then Success(None)
    else Failure(InvalidLength(i))
  }

  /** The end of a record written as an array of `n` fields. */
  function Finished<T>(items: seq<Json>, n: nat, record: T): (r: Result<T, DecodeError>)
    ensures r.Success? <==> |items| <= n
    ensures r.Success? ==> r.value == record
  {
    if |items| <= n then Success(record) else Failure(TrailingElements)
  }

  /** Decoding a JSON array as `Vec<R>`: every element must decode, and the
      first failure is the error. */
  function DecodeArray<R>(v: Json, decode: Json -> Result<R, DecodeError>): (r: Result<seq<R>, DecodeError>)
    ensures r.Success? <==> v.Arr? && forall i :: 0 <= i < |v.items| ==> decode(v.items[i]).Success?
    ensures r.Success? ==> (|r.value| == |v.items| &&
      forall i :: 0 <= i < |v.items| ==> r.value[i] == decode(v.items[i]).value)
    ensures r.Failure? && !v.Arr? ==> r.error == NotAnArray
  {
    if !v.Arr? then Failure(NotAnArray) else DecodeEach(v.items, decode)
  }

  /** Element `i` is the first that fails to decode, with error `e`. */
  predicate FirstFailure<R>(items: seq<Json>, decode: Json -> Result<R, DecodeError>, i: int, e: DecodeError)
  {
    0 <= i < |items| && decode(items[i]) == Failure(e) &&
    forall j :: 0 <= j < i ==> decode(items[j]).Success?
  }

  function DecodeEach<R>(items: seq<Json>, decode: Json -> Result<R, DecodeError>): (r: Result<seq<R>, DecodeError>)
    ensures r.Success? <==> forall i :: 0 <= i < |items| ==> decode(items[i]).Success?
    ensures r.Success? ==> (|r.value| == |items| &&
      forall i :: 0 <= i < |items| ==> r.value[i] == decode(items[i]).value)
    ensures r.Failure? ==> exists i :: FirstFailure(items, decode, i, r.error)
  {
    if |items| == 0 then Success([])
    else
      match decode(items[0])
      case Failure(e) =>
        assert FirstFailure(items, decode, 0, e);
        Failure(e)
      case Success(x) =>
        match DecodeEach(items[1..], decode)
        case Failure(e) =>
          assert exists i :: FirstFailure(items, decode, i, e) by {
            var i :| FirstFailure(items[1..], decode, i, e);
            assert FirstFailure(items, decode, i + 1, e) by {
              forall j | 0 <= j < i + 1 ensures decode(items[j]).Success? {
                if j > 0 { assert items[j] == items[1..][j - 1]; }
              }
            }
          }
          Failure(e)
        case Success(xs) =>
          assert forall i :: 0 <= i < |items| ==> decode(items[i]).Success? by {
            forall i | 0 <= i < |items| ensures decode(items[i]).Success? {
              if i > 0 { assert items[i] == items[1..][i - 1]; }
            }
          }
          var r := [x] + xs;
          assert forall i :: 1 <= i < |items| ==> r[i] == decode(items[i]).value by {
            forall i | 1 <= i < |items| ensures r[i] == decode(items[i]).value {
              assert items[i] == items[1..][i - 1];
            }
          }
          Success(r)
  }
}

/** Reading an input document (`create_column_info` in src/lib.rs and
    `create_index_info` in src/index.rs, which differ only in the record
    type). A document is either a JSON array of records, or an array of
    export envelopes (`MariaDBJson`) one of which carries the records. */
module Envelope {
  import opened Wrappers
  import opened JsonValue

  /** `MariaDBJson`, generic in the record type as src/index.rs uses it. */
  datatype Envelope<R> = Envelope(
    kind: string,                 // the JSON key `type`
    version: Option<string>,
    comment: Option<string>,
    name: Option<string>,
    database: Option<string>,
    data: Option<seq<R>>)

  // ---------------------------------------------------------------------------
  // Decoding one envelope; records inside `data` are read with `decode`.
  // As for every derived `Deserialize`, an envelope is an object keyed by
  // field name or an array of the six values in declaration order. Only
  // `type` is required in an object: the other five are `Option`s.

  /** The value of `data`: null is `None`, anything else an array of records. */
  function DataValue<R>(v: Json, decode: Json -> Result<R, DecodeError>): (r: Result<Option<seq<R>>, DecodeError>)
    ensures v.Null? ==> r == Success(None)
    ensures !v.Null? ==> (r.Success? <==> DecodeArray(v, decode).Success?)
    ensures !v.Null? && r.Success? ==> r.value == Some(DecodeArray(v, decode).value)
  {
    if v.Null? then Success(None)
    else
      var rows :- DecodeArray(v, decode);
      Success(Some(rows))
  }

  function DataAt<R>(f: map<string, Json>, decode: Json -> Result<R, DecodeError>)
    : (r: Result<Option<Option<seq<R>>>, DecodeError>)
    ensures r == Success(None) <==> "data" !in f
    ensures "data" in f ==> (r.Success? <==> DataValue(f["data"], decode).Success?)
    ensures "data" in f && r.Success? ==> r.value == Some(DataValue(f["data"], decode).value)
  {
    if "data" !in f then Success(None)
    else
      var d :- DataValue(f["data"], decode);
      Success(Some(d))
  }

  /** Every value the object holds for a field of `MariaDBJson` has the type
      that field's reader accepts. */
  predicate EnvelopeValuesReadable<R>(f: map<string, Json>, decode: Json -> Result<R, DecodeError>)
  {
    TextAt(f, "type").Success? && OptionalTextAt(f, "version").Success? &&
    OptionalTextAt(f, "comment").Success? && OptionalTextAt(f, "name").Success? &&
    OptionalTextAt(f, "database").Success? && DataAt(f, decode).Success?
  }

  function Flatten<T>(o: Option<Option<T>>): Option<T>
  {
    if o.Some? then o.value else None
  }

  /** An envelope from an object. */
  function DecodeEnvelopeFields<R>(f: map<string, Json>, decode: Json -> Result<R, DecodeError>)
    : (r: Result<Envelope<R>, DecodeError>)
    ensures r.Success? <==> EnvelopeValuesReadable(f, decode) && "type" in f
    ensures r.Success? ==> f["type"] == Str(r.value.kind)
    ensures r.Success? ==> (r.value.version.Some? <==> "version" in f && f["version"].Str?)
    ensures r.Success? ==> (r.value.data.None? <==> "data" !in f || f["data"].Null?)
    ensures r.Success? && r.value.data.Some? ==> DecodeArray(f["data"], decode) == Success(r.value.data.value)
    ensures EnvelopeValuesReadable(f, decode) && "type" !in f ==> r == Failure(MissingField("type"))
  {
    var kind :- TextAt(f, "type");
    var version :- OptionalTextAt(f, "version");
    var comment :- OptionalTextAt(f, "comment");
    var name :- OptionalTextAt(f, "name");
    var database :- OptionalTextAt(f, "database");
    var data :- DataAt(f, decode);
    var kind' :- Required(kind, "type");
    Success(Envelope(kind', Flatten(version), Flatten(comment), Flatten(name), Flatten(database), Flatten(data)))
  }

  /** An envelope from an array: exactly six values, by position. */
  function DecodeEnvelopeItems<R>(items: seq<Json>, decode: Json -> Result<R, DecodeError>)
    : (r: Result<Envelope<R>, DecodeError>)
    ensures r.Success? <==>
      |items| == 6 && items[0].Str? && (items[1].Null? || items[1].Str?) && (items[2].Null? || items[2].Str?) &&
      (items[3].Null? || items[3].Str?) && (items[4].Null? || items[4].Str?) && DataValue(items[5], decode).Success?
    ensures r.Success? ==> items[0] == Str(r.value.kind) && DataValue(items[5], decode) == Success(r.value.data)
    ensures r.Success? ==> (r.value.version.Some? <==> items[1].Str?)
  {
    var kind :- TextElement(items, 0, "type");
    var version :- OptionalTextElement(items, 1, "version", false);
    var comment :- OptionalTextElement(items, 2, "comment", false);
    var name :- OptionalTextElement(items, 3, "name", false);
    var database :- OptionalTextElement(items, 4, "database", false);
    var data :- if 5 < |items| then DataValue(items[5], decode) else Failure(InvalidLength(5));
    Finished(items, 6, Envelope(kind, version, comment, name, database, data))
  }

  /** The derived `Deserialize` of `MariaDBJson`. */
  function DecodeEnvelope<R>(v: Json, decode: Json -> Result<R, DecodeError>): (r: Result<Envelope<R>, DecodeError>)
    ensures v.Obj? ==> r == DecodeEnvelopeFields(v.fields, decode)
    ensures v.Arr? ==> r == DecodeEnvelopeItems(v.items, decode)
    ensures !v.Obj? && !v.Arr? ==> r == Failure(NotARecord)
  {
    match v
    case Obj(f) => DecodeEnvelopeFields(f, decode)
    case Arr(items) => DecodeEnvelopeItems(items, decode)
    case _ => Failure(NotARecord)
  }

  /** The loop `for i in 1..len`: the data of the first envelope at or after
      position `i` that has any. */
  function FirstDataFrom<R>(envs: seq<Envelope<R>>, i: nat): (r: Result<seq<R>, string>)
    ensures r.Success? <==> exists j :: i <= j < |envs| && envs[j].data.Some?
    ensures r.Success? ==> exists j :: (i <= j < |envs| && envs[j].data == Some(r.value) &&
      forall l :: i <= l < j ==> envs[l].data.None?)
    ensures r.Failure? ==> r.error == "Cannot find data"
    decreases |envs| - i
  {
    if i >= |envs| then Failure("Cannot find data")
    else if envs[i].data.Some? then Success(envs[i].data.value)
    else FirstDataFrom(envs, i + 1)
  }

  /** Envelope selection: element 0 is never looked at. */
  function SelectData<R>(envs: seq<Envelope<R>>): (r: Result<seq<R>, string>)
    ensures r.Success? <==> exists j :: 1 <= j < |envs| && envs[j].data.Some?
    ensures r.Success? ==> exists j :: (1 <= j < |envs| && envs[j].data == Some(r.value) &&
      forall l :: 1 <= l < j ==> envs[l].data.None?)
    ensures r.Failure? ==> r.error == "Cannot find data"
  {
    FirstDataFrom(envs, 1)
  }

  /** `create_column_info` / `create_index_info`: a flat array of records
      first; failing that, an array of envelopes; failing that, the envelope
      decoding error. */
  function CreateInfo<R>(doc: Json, decode: Json -> Result<R, DecodeError>): (r: Result<seq<R>, string>)
    ensures DecodeArray(doc, decode).Success? ==> r == Success(DecodeArray(doc, decode).value)
    ensures DecodeArray(doc, decode).Failure? && DecodeArray(doc, EnvelopeDecoder(decode)).Success? ==>
      r == SelectData(DecodeArray(doc, EnvelopeDecoder(decode)).value)
    ensures DecodeArray(doc, decode).Failure? && DecodeArray(doc, EnvelopeDecoder(decode)).Failure? ==>
      r == Failure(ParseErrorPrefix + DecodeArray(doc, EnvelopeDecoder(decode)).error.Message())
  {
    match DecodeArray(doc, decode)
    case Success(rows) => Success(rows)
    case Failure(_) =>
      match DecodeArray(doc, EnvelopeDecoder(decode))
      case Success(envs) => SelectData(envs)
      case Failure(e) => Failure(ParseErrorPrefix + e.Message())
  }

  /** `DecodeEnvelope` with its record decoder fixed. */
  function EnvelopeDecoder<R>(decode: Json -> Result<R, DecodeError>): Json -> Result<Envelope<R>, DecodeError>
  {
    v => DecodeEnvelope(v, decode)
  }

  /** Data carried only by the first envelope is not found. */
  lemma OnlyFirstEnvelopeHasData<R>(envs: seq<Envelope<R>>)
    requires |envs| >= 1 && envs[0].data.Some?
    requires forall j :: 1 <= j < |envs| ==> envs[j].data.None?
    ensures SelectData(envs) == Failure("Cannot find data")
  {
  }

  const ParseErrorPrefix := "Error parsing first JSON: "
}

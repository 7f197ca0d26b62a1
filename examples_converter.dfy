/**
 * The example converter of the Swashbuckle examples filters: it turns the named
 * example objects an API author supplies into OpenAPI example entries, one entry
 * per distinct example name, serialising each example value as JSON, XML or CSV.
 *
 * Everything the converter calls but does not own (the MVC output formatter, the
 * runtime's type tests, ToString and the XML pretty-printer) is a total function
 * held in a datatype field, so the model stays a set of pure functions.
 */
module ExamplesConverter {

  datatype Option<+T> = None | Some(value: T)

  /** The three media types the converter asks the output formatter for. */
  datatype MediaType = ApplicationXml | ApplicationJson | TextCsv

  /** The header text each media type is parsed from. */
  function HeaderText(m: MediaType): string
  {
    match m
    case ApplicationXml => "application/xml; charset=utf-8"
    case ApplicationJson => "application/json; charset=utf-8"
    case TextCsv => "text/csv"
  }

  /** The three header texts are pairwise different, so each request names one media type. */
  lemma HeaderTextDistinct(m: MediaType, m': MediaType)
    ensures HeaderText(m) == HeaderText(m') <==> m == m'
  {
    assert "application/xml; charset=utf-8"[12] != "application/json; charset=utf-8"[12];
    assert "text/csv"[0] != "application/xml; charset=utf-8"[0];
    assert "text/csv"[0] != "application/json; charset=utf-8"[0];
  }

  /**
   * What one call of the MVC output formatter does: it yields the serialised text,
   * reports that no formatter is registered for the media type, or fails otherwise.
   */
  datatype FormatterOutcome = Formatted(text: string) | NotFound | OtherError(message: string)

  /** The exceptions that can leave the converter. */
  datatype Exception = FormatterNotFoundException | SerializationException(message: string)

  /** A value, or the exception that aborted its computation. */
  datatype Result<+T> = Ok(value: T) | Fail(error: Exception)

  /** An OpenAPI string node; a raw string is spliced into the document as JSON text. */
  datatype OpenApiString = OpenApiString(value: string, isExplicit: bool, isRawString: bool)

  /** One documented example of the generated OpenAPI document. */
  datatype OpenApiExample = OpenApiExample(summary: Option<string>, description: Option<string>, value: OpenApiString)

  /** A named example as its author declares it; `value` is the example object itself. */
  datatype ExampleDescriptor<V> = ExampleDescriptor(name: string, summary: Option<string>, description: Option<string>, value: V)

  /**
   * What the runtime and the libraries say about example values: whether the value's
   * type is primitive, a value type or string; its ToString; and the XML pretty-printer.
   */
  datatype Platform<!V> = Platform(isScalar: V -> bool, show: V -> string, formatXml: string -> string)

  /** A converter instance: its one field is the output formatter given to its constructor. */
  datatype Converter<!V> = Converter(formatter: (V, MediaType) -> FormatterOutcome, platform: Platform<V>)

  /** The exception the output formatter throws when it does not produce text. */
  function Thrown(o: FormatterOutcome): Exception
    requires !o.Formatted?
  {
    if o.NotFound? then FormatterNotFoundException else SerializationException(o.message)
  }

  /** `MvcOutputFormatter.Serialize`: the text, or the exception it throws. */
  function Serialize<V>(c: Converter<V>, v: V, m: MediaType): Result<string>
  {
    var o := c.formatter(v, m);
    if o.Formatted? then Ok(o.text) else Fail(Thrown(o))
  }

  /** A plain (escaped, non-raw) OpenAPI string. */
  function PlainString(s: string): OpenApiString
  {
    OpenApiString(s, false, false)
  }

  /** The placeholder a CSV example shows when no CSV formatter is registered. */
  const NoFormatterFound: string := "No formatter found"

  /**
   * CSV: a scalar value is its own ToString; any other value is handed to the
   * formatter, and only a "formatter not found" failure is turned into a placeholder.
   */
  function SerializeExampleCsv<V>(c: Converter<V>, v: V): (r: Result<OpenApiString>)
    ensures c.platform.isScalar(v) ==> r == Ok(PlainString(c.platform.show(v)))
    ensures !c.platform.isScalar(v) && c.formatter(v, TextCsv).Formatted? ==>
              r == Ok(PlainString(c.formatter(v, TextCsv).text))
    ensures !c.platform.isScalar(v) && c.formatter(v, TextCsv).NotFound? ==> r == Ok(PlainString(NoFormatterFound))
    ensures r.Fail? <==> !c.platform.isScalar(v) && c.formatter(v, TextCsv).OtherError?
    ensures r.Fail? ==> r.error == SerializationException(c.formatter(v, TextCsv).message)
    ensures r.Ok? ==> !r.value.isRawString
  {
    if c.platform.isScalar(v) then
      Ok(PlainString(c.platform.show(v)))
    else
      match Serialize(c, v, TextCsv)
      case Ok(text) => Ok(PlainString(text))
      case Fail(FormatterNotFoundException) => Ok(PlainString(NoFormatterFound))
      case Fail(e) => Fail(e)
  }

  /** XML: the formatter's text, pretty-printed; every formatter failure propagates. */
  function SerializeExampleXml<V>(c: Converter<V>, v: V): (r: Result<OpenApiString>)
    ensures r.Ok? <==> c.formatter(v, ApplicationXml).Formatted?
    ensures r.Ok? ==> r.value == PlainString(c.platform.formatXml(c.formatter(v, ApplicationXml).text))
    ensures r.Fail? ==> r.error == Thrown(c.formatter(v, ApplicationXml))
  {
    match Serialize(c, v, ApplicationXml)
    case Ok(text) => Ok(PlainString(c.platform.formatXml(text)))
    case Fail(e) => Fail(e)
  }

  /** JSON: the formatter's text as a raw string node; every formatter failure propagates. */
  function SerializeExampleJson<V>(c: Converter<V>, v: V): (r: Result<OpenApiString>)
    ensures r.Ok? <==> c.formatter(v, ApplicationJson).Formatted?
    ensures r.Ok? ==> r.value == OpenApiString(c.formatter(v, ApplicationJson).text, false, true)
    ensures r.Fail? ==> r.error == Thrown(c.formatter(v, ApplicationJson))
  {
    match Serialize(c, v, ApplicationJson)
    case Ok(text) => Ok(OpenApiString(text, false, true))
    case Fail(e) => Fail(e)
  }

  /** The three serialisers the dictionary builder can be given. */
  datatype Format = Json | Xml | Csv

  /** The serialiser each public entry point hands to the dictionary builder. */
  function SerializeExample<V>(c: Converter<V>, format: Format, v: V): Result<OpenApiString>
  {
    match format
    case Json => SerializeExampleJson(c, v)
    case Xml => SerializeExampleXml(c, v)
    case Csv => SerializeExampleCsv(c, v)
  }

  /** The names the descriptors carry. */
  function Names<V>(examples: seq<ExampleDescriptor<V>>): set<string>
  {
    if examples == [] then {} else {examples[0].name} + Names(examples[1..])
  }

  /** Every descriptor's name is among the names. */
  lemma {:induction false} NameIn<V>(examples: seq<ExampleDescriptor<V>>, i: nat)
    requires i < |examples|
    ensures examples[i].name in Names(examples)
  {
    if i > 0 {
      NameIn(examples[1..], i - 1);
    }
  }

  /** The position of the first descriptor named n. */
  function FirstIndex<V>(examples: seq<ExampleDescriptor<V>>, n: string): (k: nat)
    requires n in Names(examples)
    ensures k < |examples| && examples[k].name == n
    ensures forall j :: 0 <= j < k ==> examples[j].name != n
  {
    if examples[0].name == n then 0
    else
      var k := FirstIndex(examples[1..], n);
      assert forall j :: 1 <= j <= k ==> examples[j] == examples[1..][j - 1];
      k + 1
  }

  /** No descriptor before position i carries the name of the one at i. */
  predicate FirstNamed<V>(examples: seq<ExampleDescriptor<V>>, i: int)
    requires 0 <= i < |examples|
  {
    forall j :: 0 <= j < i ==> examples[j].name != examples[i].name
  }

  /** A descriptor is the first of its name exactly when FirstIndex points at it. */
  lemma FirstIndexAt<V>(examples: seq<ExampleDescriptor<V>>, i: nat)
    requires i < |examples|
    ensures examples[i].name in Names(examples)
    ensures FirstNamed(examples, i) <==> FirstIndex(examples, examples[i].name) == i
  {
    NameIn(examples, i);
  }

  /** The entry built for one descriptor once its value is converted. */
  function BuildExample<V>(d: ExampleDescriptor<V>, value: OpenApiString): OpenApiExample
  {
    OpenApiExample(d.summary, d.description, value)
  }

  /**
   * The grouping of `GroupBy` and `ToDictionary`, given every descriptor's converted
   * value: each distinct name maps to the entry of its first descriptor, and later
   * descriptors with that name are dropped.
   */
  function FirstByName<V>(examples: seq<ExampleDescriptor<V>>, values: seq<OpenApiString>): (m: map<string, OpenApiExample>)
    requires |values| == |examples|
    ensures m.Keys == Names(examples)
    ensures forall n :: n in m ==>
              m[n] == BuildExample(examples[FirstIndex(examples, n)], values[FirstIndex(examples, n)])
  {
    if examples == [] then map[]
    else
      var rest := FirstByName(examples[1..], values[1..]);
      rest[examples[0].name := BuildExample(examples[0], values[0])]
  }

  /** The first descriptor whose conversion throws, throws e. */
  ghost predicate FirstFailureIs<V>(examples: seq<ExampleDescriptor<V>>, c: Converter<V>, format: Format, e: Exception)
  {
    exists i :: 0 <= i < |examples| && SerializeExample(c, format, examples[i].value) == Fail(e)
                && forall j :: 0 <= j < i ==> SerializeExample(c, format, examples[j].value).Ok?
  }

  /**
   * The element selector of `GroupBy`, applied to every descriptor in input order;
   * the first conversion that throws aborts the whole pass.
   */
  function ConvertAll<V>(examples: seq<ExampleDescriptor<V>>, c: Converter<V>, format: Format)
    : (r: Result<seq<OpenApiString>>)
    ensures r.Ok? <==> forall i :: 0 <= i < |examples| ==> SerializeExample(c, format, examples[i].value).Ok?
    ensures r.Ok? ==> |r.value| == |examples|
    ensures r.Ok? ==> forall i :: 0 <= i < |examples| ==> r.value[i] == SerializeExample(c, format, examples[i].value).value
    ensures r.Fail? ==> FirstFailureIs(examples, c, format, r.error)
  {
    if examples == [] then Ok([])
    else
      match SerializeExample(c, format, examples[0].value)
      case Fail(e) => Fail(e)
      case Ok(v) =>
        match ConvertAll(examples[1..], c, format)
        case Fail(e) =>
          assert FirstFailureIs(examples, c, format, e) by {
            var i :| 0 <= i < |examples| - 1 && SerializeExample(c, format, examples[1..][i].value) == Fail(e)
                     && forall j :: 0 <= j < i ==> SerializeExample(c, format, examples[1..][j].value).Ok?;
            assert forall j :: 1 <= j <= i + 1 ==> examples[j] == examples[1..][j - 1];
          }
          Fail(e)
        case Ok(rest) => Ok([v] + rest)
  }

  /** The entry the first descriptor named n produces under the given serialiser. */
  function FirstEntry<V>(examples: seq<ExampleDescriptor<V>>, c: Converter<V>, format: Format, n: string): OpenApiExample
    requires n in Names(examples)
    requires SerializeExample(c, format, examples[FirstIndex(examples, n)].value).Ok?
  {
    var d := examples[FirstIndex(examples, n)];
    BuildExample(d, SerializeExample(c, format, d.value).value)
  }

  /**
   * The shared dictionary builder: every descriptor is converted, then each distinct
   * name keeps the entry of its first descriptor. Any conversion that throws aborts
   * the call without a partial dictionary; an empty input gives an empty dictionary.
   */
  function ToOpenApiExamplesDictionary<V>(examples: seq<ExampleDescriptor<V>>, c: Converter<V>, format: Format)
    : (r: Result<map<string, OpenApiExample>>)
    ensures examples == [] ==> r == Ok(map[])
    ensures r.Ok? <==> forall i :: 0 <= i < |examples| ==> SerializeExample(c, format, examples[i].value).Ok?
    ensures r.Ok? ==> r.value.Keys == Names(examples)
    ensures r.Ok? ==> forall n :: n in r.value ==> r.value[n] == FirstEntry(examples, c, format, n)
    ensures r.Fail? ==> FirstFailureIs(examples, c, format, r.error)
  {
    match ConvertAll(examples, c, format)
    case Fail(e) => Fail(e)
    case Ok(values) => Ok(FirstByName(examples, values))
  }

  /** The entry under a name is the one built from the first descriptor with that name. */
  lemma DictionaryFirstWins<V>(examples: seq<ExampleDescriptor<V>>, c: Converter<V>, format: Format, i: nat)
    requires ToOpenApiExamplesDictionary(examples, c, format).Ok?
    requires i < |examples| && FirstNamed(examples, i)
    ensures examples[i].name in ToOpenApiExamplesDictionary(examples, c, format).value
    ensures ToOpenApiExamplesDictionary(examples, c, format).value[examples[i].name]
         == BuildExample(examples[i], SerializeExample(c, format, examples[i].value).value)
  {
    FirstIndexAt(examples, i);
  }

  /** A failed call reports the exception of the first descriptor whose conversion throws. */
  lemma DictionaryFirstFailure<V>(examples: seq<ExampleDescriptor<V>>, c: Converter<V>, format: Format)
    returns (i: nat)
    requires ToOpenApiExamplesDictionary(examples, c, format).Fail?
    ensures i < |examples| && SerializeExample(c, format, examples[i].value) == Fail(ToOpenApiExamplesDictionary(examples, c, format).error)
    ensures forall j :: 0 <= j < i ==> SerializeExample(c, format, examples[j].value).Ok?
  {
    var e := ToOpenApiExamplesDictionary(examples, c, format).error;
    assert FirstFailureIs(examples, c, format, e);
    i :| 0 <= i < |examples| && SerializeExample(c, format, examples[i].value) == Fail(e)
         && forall j :: 0 <= j < i ==> SerializeExample(c, format, examples[j].value).Ok?;
  }

  /** The XML entry point: every example serialised as pretty-printed XML. */
  function ToOpenApiExamplesDictionaryXml<V>(c: Converter<V>, examples: seq<ExampleDescriptor<V>>)
    : (r: Result<map<string, OpenApiExample>>)
    ensures r == ToOpenApiExamplesDictionary(examples, c, Xml)
    ensures r.Ok? <==> forall i :: 0 <= i < |examples| ==> c.formatter(examples[i].value, ApplicationXml).Formatted?
    ensures r.Ok? ==> r.value.Keys == Names(examples)
    ensures r.Ok? ==> forall n :: n in r.value ==> !r.value[n].value.isRawString
    ensures r.Fail? ==> exists i :: 0 <= i < |examples| && !c.formatter(examples[i].value, ApplicationXml).Formatted?
                                  && r.error == Thrown(c.formatter(examples[i].value, ApplicationXml))
  {
    var r := ToOpenApiExamplesDictionary(examples, c, Xml);
    if r.Ok? then
      assert forall n :: n in r.value ==> !r.value[n].value.isRawString by {
        forall n | n in r.value ensures !r.value[n].value.isRawString {
          var i := FirstIndex(examples, n);
          var e := SerializeExample(c, Xml, examples[i].value);
          assert e.Ok? && !e.value.isRawString;
        }
      }
      r
    else
      assert exists i :: 0 <= i < |examples| && !c.formatter(examples[i].value, ApplicationXml).Formatted?
                         && r.error == Thrown(c.formatter(examples[i].value, ApplicationXml)) by {
        var i := DictionaryFirstFailure(examples, c, Xml);
      }
      r
  }

  /** The CSV entry point: scalars as their ToString, other values through the CSV formatter. */
  function ToOpenApiExamplesDictionaryCsv<V>(c: Converter<V>, examples: seq<ExampleDescriptor<V>>)
    : (r: Result<map<string, OpenApiExample>>)
    ensures r == ToOpenApiExamplesDictionary(examples, c, Csv)
    ensures r.Ok? <==> forall i :: 0 <= i < |examples| ==>
              c.platform.isScalar(examples[i].value) || !c.formatter(examples[i].value, TextCsv).OtherError?
    ensures r.Ok? ==> r.value.Keys == Names(examples)
    ensures r.Ok? ==> forall n :: n in r.value ==> !r.value[n].value.isRawString
    ensures r.Fail? ==> exists i :: 0 <= i < |examples| && !c.platform.isScalar(examples[i].value)
                                  && c.formatter(examples[i].value, TextCsv).OtherError?
                                  && r.error == SerializationException(c.formatter(examples[i].value, TextCsv).message)
  {
    var r := ToOpenApiExamplesDictionary(examples, c, Csv);
    if r.Ok? then
      assert forall n :: n in r.value ==> !r.value[n].value.isRawString by {
        forall n | n in r.value ensures !r.value[n].value.isRawString {
          var i := FirstIndex(examples, n);
          var e := SerializeExample(c, Csv, examples[i].value);
          assert e.Ok? && !e.value.isRawString;
        }
      }
      r
    else
      assert exists i :: 0 <= i < |examples| && !c.platform.isScalar(examples[i].value)
                         && c.formatter(examples[i].value, TextCsv).OtherError?
                         && r.error == SerializationException(c.formatter(examples[i].value, TextCsv).message) by {
        var i := DictionaryFirstFailure(examples, c, Csv);
      }
      r
  }

  /** The JSON entry point: every example serialised as a raw JSON string node. */
  function ToOpenApiExamplesDictionaryJson<V>(c: Converter<V>, examples: seq<ExampleDescriptor<V>>)
    : (r: Result<map<string, OpenApiExample>>)
    ensures r == ToOpenApiExamplesDictionary(examples, c, Json)
    ensures r.Ok? <==> forall i :: 0 <= i < |examples| ==> c.formatter(examples[i].value, ApplicationJson).Formatted?
    ensures r.Ok? ==> r.value.Keys == Names(examples)
    ensures r.Ok? ==> forall n :: n in r.value ==> r.value[n].value.isRawString
    ensures r.Fail? ==> exists i :: 0 <= i < |examples| && !c.formatter(examples[i].value, ApplicationJson).Formatted?
                                  && r.error == Thrown(c.formatter(examples[i].value, ApplicationJson))
  {
    var r := ToOpenApiExamplesDictionary(examples, c, Json);
    if r.Ok? then
      assert forall n :: n in r.value ==> r.value[n].value.isRawString by {
        forall n | n in r.value ensures r.value[n].value.isRawString {
          var i := FirstIndex(examples, n);
          var e := SerializeExample(c, Json, examples[i].value);
          assert e.Ok? && e.value.isRawString;
        }
      }
      r
    else
      assert exists i :: 0 <= i < |examples| && !c.formatter(examples[i].value, ApplicationJson).Formatted?
                         && r.error == Thrown(c.formatter(examples[i].value, ApplicationJson)) by {
        var i := DictionaryFirstFailure(examples, c, Json);
      }
      r
  }
}

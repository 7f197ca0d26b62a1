/**
 * Properties of the example converter that relate several calls: how the three
 * serialisers treat a missing formatter, why a later duplicate name changes
 * nothing, how a failure on any descriptor aborts the call, and a worked CSV case.
 */
module ExamplesConverterProperties {
  import opened ExamplesConverter

  /** A scalar CSV example never reaches the formatter: any other formatter gives the same entry. */
  lemma CsvScalarIgnoresFormatter<V>(c: Converter<V>, other: (V, MediaType) -> FormatterOutcome, v: V)
    requires c.platform.isScalar(v)
    ensures SerializeExampleCsv(c, v) == SerializeExampleCsv(c.(formatter := other), v)
    ensures SerializeExampleCsv(c, v) == Ok(PlainString(c.platform.show(v)))
  {
  }

  /**
   * When no formatter is registered, JSON and XML throw while CSV shows the
   * placeholder for a non-scalar value.
   */
  lemma NotFoundRecoveredOnlyByCsv<V>(c: Converter<V>, v: V)
    requires forall m: MediaType :: c.formatter(v, m) == NotFound
    ensures SerializeExampleJson(c, v) == Fail(FormatterNotFoundException)
    ensures SerializeExampleXml(c, v) == Fail(FormatterNotFoundException)
    ensures !c.platform.isScalar(v) ==> SerializeExampleCsv(c, v) == Ok(PlainString(NoFormatterFound))
  {
    assert c.formatter(v, ApplicationJson) == NotFound;
    assert c.formatter(v, ApplicationXml) == NotFound;
    assert c.formatter(v, TextCsv) == NotFound;
  }

  /** Any other formatter failure propagates from all three serialisers. */
  lemma OtherErrorsPropagate<V>(c: Converter<V>, v: V, m: MediaType, message: string)
    requires c.formatter(v, m) == OtherError(message)
    requires m == TextCsv ==> !c.platform.isScalar(v)
    ensures m == ApplicationJson ==> SerializeExampleJson(c, v) == Fail(SerializationException(message))
    ensures m == ApplicationXml ==> SerializeExampleXml(c, v) == Fail(SerializationException(message))
    ensures m == TextCsv ==> SerializeExampleCsv(c, v) == Fail(SerializationException(message))
  {
  }

  /** Appending a descriptor adds exactly its name. */
  lemma {:induction false} NamesAppend<V>(examples: seq<ExampleDescriptor<V>>, d: ExampleDescriptor<V>)
    ensures Names(examples + [d]) == Names(examples) + {d.name}
  {
    if examples != [] {
      assert (examples + [d])[1..] == examples[1..] + [d];
      NamesAppend(examples[1..], d);
    } else {
      assert ([d])[1..] == [];
    }
  }

  /** A position whose name no earlier descriptor carries is where FirstIndex points. */
  lemma FirstIndexUnique<V>(examples: seq<ExampleDescriptor<V>>, n: string, k: nat)
    requires k < |examples| && examples[k].name == n
    requires forall j :: 0 <= j < k ==> examples[j].name != n
    ensures n in Names(examples) && FirstIndex(examples, n) == k
  {
    NameIn(examples, k);
  }

  /**
   * A descriptor whose name is already taken is converted but dropped: appending it
   * leaves the dictionary as it was, provided its conversion does not throw.
   */
  lemma LaterDuplicateIgnored<V>(examples: seq<ExampleDescriptor<V>>, d: ExampleDescriptor<V>, c: Converter<V>, format: Format)
    requires d.name in Names(examples)
    requires SerializeExample(c, format, d.value).Ok?
    ensures ToOpenApiExamplesDictionary(examples + [d], c, format) == ToOpenApiExamplesDictionary(examples, c, format)
  {
    if ToOpenApiExamplesDictionary(examples, c, format).Ok? {
      SameEntriesAfterDuplicate(examples, d, c, format);
    } else {
      FailureFixedByPrefix(examples, [d], c, format);
    }
  }

  /** The success half of LaterDuplicateIgnored: both dictionaries exist and agree key by key. */
  lemma SameEntriesAfterDuplicate<V>(examples: seq<ExampleDescriptor<V>>, d: ExampleDescriptor<V>, c: Converter<V>, format: Format)
    requires d.name in Names(examples)
    requires SerializeExample(c, format, d.value).Ok?
    requires ToOpenApiExamplesDictionary(examples, c, format).Ok?
    ensures ToOpenApiExamplesDictionary(examples + [d], c, format) == ToOpenApiExamplesDictionary(examples, c, format)
  {
    var longer := examples + [d];
    DuplicateKeepsKeys(examples, d, c, format);
    var m, m' := ToOpenApiExamplesDictionary(longer, c, format).value, ToOpenApiExamplesDictionary(examples, c, format).value;
    forall n | n in m ensures m[n] == m'[n] {
      var k := FirstIndex(examples, n);
      assert longer[k] == examples[k];
      FirstIndexUnique(longer, n, k);
    }
    MapsAgree(m, m');
  }

  /** Appending a taken name whose conversion succeeds keeps the call successful and the key set unchanged. */
  lemma DuplicateKeepsKeys<V>(examples: seq<ExampleDescriptor<V>>, d: ExampleDescriptor<V>, c: Converter<V>, format: Format)
    requires d.name in Names(examples)
    requires SerializeExample(c, format, d.value).Ok?
    requires ToOpenApiExamplesDictionary(examples, c, format).Ok?
    ensures ToOpenApiExamplesDictionary(examples + [d], c, format).Ok?
    ensures ToOpenApiExamplesDictionary(examples + [d], c, format).value.Keys
         == ToOpenApiExamplesDictionary(examples, c, format).value.Keys
  {
    var longer := examples + [d];
    forall i | 0 <= i < |longer| ensures SerializeExample(c, format, longer[i].value).Ok? {
      if i < |examples| {
        assert longer[i] == examples[i];
      }
    }
    NamesAppend(examples, d);
  }

  /** Two maps with the same keys and the same value under every key are equal. */
  lemma MapsAgree<K, T>(m: map<K, T>, m': map<K, T>)
    requires m.Keys == m'.Keys
    requires forall k :: k in m ==> m[k] == m'[k]
    ensures m == m'
  {
  }

  /**
   * The first descriptor whose conversion throws decides the exception, so more
   * descriptors after it cannot change the outcome.
   */
  lemma FailureFixedByPrefix<V>(examples: seq<ExampleDescriptor<V>>, more: seq<ExampleDescriptor<V>>, c: Converter<V>, format: Format)
    requires ToOpenApiExamplesDictionary(examples, c, format).Fail?
    ensures ToOpenApiExamplesDictionary(examples + more, c, format) == ToOpenApiExamplesDictionary(examples, c, format)
  {
    var longer := examples + more;
    assert forall j :: 0 <= j < |examples| ==> longer[j] == examples[j];
    var i := DictionaryFirstFailure(examples, c, format);
    assert !SerializeExample(c, format, longer[i].value).Ok?;
    var k := DictionaryFirstFailure(longer, c, format);
    assert k == i;
  }

  /** A descriptor that is later discarded as a duplicate still aborts the call when it throws. */
  lemma DiscardedDuplicateStillAborts<V>(examples: seq<ExampleDescriptor<V>>, i: nat, j: nat, c: Converter<V>, format: Format)
    requires i < j < |examples|
    requires examples[i].name == examples[j].name
    requires SerializeExample(c, format, examples[j].value).Fail?
    ensures ToOpenApiExamplesDictionary(examples, c, format).Fail?
  {
  }

  /** Descriptors whose names are pairwise distinct. */
  predicate DistinctNames<V>(examples: seq<ExampleDescriptor<V>>)
  {
    forall i, j :: 0 <= i < j < |examples| ==> examples[i].name != examples[j].name
  }

  /** There are never more distinct names than descriptors, and as many exactly when no name repeats. */
  lemma {:induction false} NamesCount<V>(examples: seq<ExampleDescriptor<V>>)
    ensures |Names(examples)| <= |examples|
    ensures |Names(examples)| == |examples| <==> DistinctNames(examples)
  {
    if examples != [] {
      var head, rest := examples[0], examples[1..];
      NamesCount(rest);
      assert forall i :: 1 <= i < |examples| ==> examples[i] == rest[i - 1];
      if head.name in Names(rest) {
        var k := FirstIndex(rest, head.name);
        assert examples[k + 1].name == head.name;
      } else {
        if DistinctNames(rest) {
          forall i, j | 0 <= i < j < |examples| ensures examples[i].name != examples[j].name {
            if i == 0 {
              NameIn(rest, j - 1);
            }
          }
        }
      }
    }
  }

  /** The dictionary has at most one entry per descriptor, and exactly one when no name repeats. */
  lemma DictionarySize<V>(examples: seq<ExampleDescriptor<V>>, c: Converter<V>, format: Format)
    requires ToOpenApiExamplesDictionary(examples, c, format).Ok?
    ensures |ToOpenApiExamplesDictionary(examples, c, format).value| <= |examples|
    ensures |ToOpenApiExamplesDictionary(examples, c, format).value| == |examples| <==> DistinctNames(examples)
  {
    var m := ToOpenApiExamplesDictionary(examples, c, format).value;
    assert |m| == |m.Keys|;
    NamesCount(examples);
  }

  /** Example values of the worked case: a number or a string, both scalar in the runtime. */
  datatype SampleValue = Number(n: nat) | Text(s: string)

  /** The decimal ToString of a natural number. */
  function Decimal(n: nat): (s: string)
    ensures |s| > 0
    decreases n
  {
    var digit := ('0' as int + n % 10) as char;
    if n < 10 then [digit] else Decimal(n / 10) + [digit]
  }

  function SamplePlatform(): Platform<SampleValue>
  {
    Platform(
      (v: SampleValue) => true,
      (v: SampleValue) => match v case Number(n) => Decimal(n) case Text(s) => s,
      s => s)
  }

  /** The ToString of the worked case's three values. */
  lemma SampleText()
    ensures SamplePlatform().show(Number(42)) == "42"
    ensures SamplePlatform().show(Text("x")) == "x"
  {
    assert Decimal(4) == "4";
  }

  function SampleExamples(): seq<ExampleDescriptor<SampleValue>>
  {
    [ ExampleDescriptor("a", None, None, Number(42)),
      ExampleDescriptor("a", None, None, Number(99)),
      ExampleDescriptor("b", None, None, Text("x")) ]
  }

  /**
   * Two examples named "a" (42 and 99) and one named "b" ("x") give, whatever the
   * formatter, the CSV dictionary {"a": "42", "b": "x"}: the second "a" is dropped
   * and the scalars are their own text.
   */
  lemma CsvScenario(formatter: (SampleValue, MediaType) -> FormatterOutcome)
    ensures ToOpenApiExamplesDictionaryCsv(Converter(formatter, SamplePlatform()), SampleExamples())
         == Ok(map["a" := OpenApiExample(None, None, PlainString("42")),
                   "b" := OpenApiExample(None, None, PlainString("x"))])
  {
    var c := Converter(formatter, SamplePlatform());
    SampleConversions(c);
    SampleDictionary(c, SampleExamples());
  }

  /** Under the sample platform every sample value is scalar, so CSV gives its text. */
  lemma SampleConversions(c: Converter<SampleValue>)
    requires c.platform == SamplePlatform()
    ensures SerializeExample(c, Csv, Number(42)) == Ok(PlainString("42"))
    ensures SerializeExample(c, Csv, Number(99)).Ok?
    ensures SerializeExample(c, Csv, Text("x")) == Ok(PlainString("x"))
  {
    SampleText();
  }

  // The worked-case lemmas below take the sample as a parameter equal to SampleExamples(),
  // so the solver reasons about one name for it rather than unfolding the literal at every use.

  /** The worked case for any converter that renders the three sample values as "42", some text and "x". */
  lemma SampleDictionary(c: Converter<SampleValue>, examples: seq<ExampleDescriptor<SampleValue>>)
    requires examples == SampleExamples()
    requires SerializeExample(c, Csv, Number(42)) == Ok(PlainString("42"))
    requires SerializeExample(c, Csv, Number(99)).Ok?
    requires SerializeExample(c, Csv, Text("x")) == Ok(PlainString("x"))
    ensures ToOpenApiExamplesDictionary(examples, c, Csv)
         == Ok(map["a" := OpenApiExample(None, None, PlainString("42")),
                   "b" := OpenApiExample(None, None, PlainString("x"))])
  {
    SampleEntries(c, examples);
    var r := ToOpenApiExamplesDictionary(examples, c, Csv);
    MapsAgree(r.value, map["a" := OpenApiExample(None, None, PlainString("42")),
                           "b" := OpenApiExample(None, None, PlainString("x"))]);
  }

  /** The key set and the two entries of the worked case. */
  lemma SampleEntries(c: Converter<SampleValue>, examples: seq<ExampleDescriptor<SampleValue>>)
    requires examples == SampleExamples()
    requires SerializeExample(c, Csv, Number(42)) == Ok(PlainString("42"))
    requires SerializeExample(c, Csv, Number(99)).Ok?
    requires SerializeExample(c, Csv, Text("x")) == Ok(PlainString("x"))
    ensures ToOpenApiExamplesDictionary(examples, c, Csv).Ok?
    ensures ToOpenApiExamplesDictionary(examples, c, Csv).value.Keys == {"a", "b"}
    ensures ToOpenApiExamplesDictionary(examples, c, Csv).value["a"] == OpenApiExample(None, None, PlainString("42"))
    ensures ToOpenApiExamplesDictionary(examples, c, Csv).value["b"] == OpenApiExample(None, None, PlainString("x"))
  {
    assert examples[0].value == Number(42) && examples[1].value == Number(99) && examples[2].value == Text("x");
    SampleNames(examples);
    DictionaryFirstWins(examples, c, Csv, 0);
    DictionaryFirstWins(examples, c, Csv, 2);
  }

  /** The sample descriptors carry the names "a" and "b". */
  lemma SampleNames(examples: seq<ExampleDescriptor<SampleValue>>)
    requires examples == SampleExamples()
    ensures Names(examples) == {"a", "b"}
  {
    assert Names(examples[2..]) == {"b"} by {
      assert examples[2..][1..] == [];
    }
    assert examples[1..][1..] == examples[2..];
  }
}

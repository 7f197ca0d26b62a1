# Example converter of Swashbuckle.AspNetCore.Filters

This project models `ExamplesConverter`, the helper of the Swashbuckle examples filters. It turns named example objects into OpenAPI example entries.

An API author supplies descriptors. Each has a name, an optional summary, an optional description and a value. The converter serialises each value in one of three ways:

- **JSON**: the output formatter's text, as a raw string node.
- **XML**: the output formatter's text, pretty-printed.
- **CSV**: a primitive, value-type or string value is its own `ToString`, and the formatter is never called. Any other value goes to the formatter. A "no formatter found" failure becomes the placeholder `"No formatter found"`.

The descriptors are then grouped by name. Each distinct name maps to the entry built from its first descriptor in input order. Later descriptors with the same name are dropped without notice.

The model is pure, like the source:

- Values are datatypes and operations are functions; the properties are lemmas.
- The converter's one field, the MVC output formatter, is a total function from a value and a media type to an outcome: formatted text, "not found", or another error.
- The runtime facts the converter relies on are also functions. These are the scalar-type test, `ToString` and the XML pretty-printer, grouped in a `Platform` value.
- Exceptions are the `Fail` case of a `Result`.

The grouping follows the code, not a simpler "insert if absent" reading. The element selector of `GroupBy` converts every descriptor, including duplicates that are later dropped. As a result, a duplicate whose conversion throws still aborts the whole call. When several conversions throw, the exception of the first one in input order leaves the call.

`examples_converter.dfy` holds the model and its direct guarantees. `examples_converter_properties.dfy` holds lemmas relating several calls, and one worked CSV case: two examples named "a" (42 and 99) and one named "b" ("x") give `{"a": "42", "b": "x"}`.

## Model

| member | source | states |
|---|---|---|
| ExamplesConverter.SerializeExampleCsv | src/Swashbuckle.AspNetCore.Filters/Examples/ExamplesConverter.cs:24-40 | A scalar gives a plain string of its ToString. A formatted non-scalar gives the formatter's text. "Not found" gives the "No formatter found" placeholder. The call fails exactly when the value is non-scalar and the formatter fails some other way, and then it carries that error. A successful result is never a raw string. |
| ExamplesConverter.SerializeExampleXml | src/Swashbuckle.AspNetCore.Filters/Examples/ExamplesConverter.cs:42-45 | Succeeds exactly when the formatter produces XML text. The result is then the pretty-printed text as a plain string. Otherwise the formatter's exception, "not found" included, propagates unchanged. |
| ExamplesConverter.SerializeExampleJson | src/Swashbuckle.AspNetCore.Filters/Examples/ExamplesConverter.cs:47-50 | Succeeds exactly when the formatter produces JSON text. The result is then that text as a raw, non-explicit string node. Otherwise the formatter's exception propagates unchanged. |
| ExamplesConverter.HeaderTextDistinct | src/Swashbuckle.AspNetCore.Filters/Examples/ExamplesConverter.cs:13-15 | The three media-type header strings are pairwise different, so each serialiser requests its own media type. |
| ExamplesConverter.NameIn | src/Swashbuckle.AspNetCore.Filters/Examples/ExamplesConverter.cs:74-75 | Every descriptor's name is among the grouping keys. |
| ExamplesConverter.FirstIndex | src/Swashbuckle.AspNetCore.Filters/Examples/ExamplesConverter.cs:83-86 | For a name that occurs, it gives a position carrying that name, with no earlier position carrying it: the descriptor `grouping.First()` picks. |
| ExamplesConverter.FirstIndexAt | src/Swashbuckle.AspNetCore.Filters/Examples/ExamplesConverter.cs:83-86 | A descriptor is the first of its name exactly when FirstIndex of its name points at it. |
| ExamplesConverter.ConvertAll | src/Swashbuckle.AspNetCore.Filters/Examples/ExamplesConverter.cs:74-81 | The element selector runs on every descriptor in order. It succeeds exactly when every conversion succeeds, and then gives one converted value per descriptor, in order. On failure, the error is that of the first descriptor whose conversion throws. |
| ExamplesConverter.FirstByName | src/Swashbuckle.AspNetCore.Filters/Examples/ExamplesConverter.cs:74-86 | Given the converted values, the keys are exactly the distinct names. Each name maps to the summary, description and converted value of its first descriptor. |
| ExamplesConverter.ToOpenApiExamplesDictionary | src/Swashbuckle.AspNetCore.Filters/Examples/ExamplesConverter.cs:70-89 | Empty input gives an empty dictionary. The call succeeds exactly when every descriptor's conversion succeeds, and then the keys are the distinct names and each name maps to the entry of its first descriptor. A failure carries the first throwing descriptor's exception. |
| ExamplesConverter.DictionaryFirstWins | src/Swashbuckle.AspNetCore.Filters/Examples/ExamplesConverter.cs:83-86 | The first descriptor of a name is in the dictionary under that name. Its entry is that descriptor's summary and description with its converted value. |
| ExamplesConverter.DictionaryFirstFailure | src/Swashbuckle.AspNetCore.Filters/Examples/ExamplesConverter.cs:74-81 | A failed call names a descriptor whose conversion throws the reported exception, and every descriptor before it converts successfully. |
| ExamplesConverter.ToOpenApiExamplesDictionaryXml | src/Swashbuckle.AspNetCore.Filters/Examples/ExamplesConverter.cs:52-56 | Succeeds exactly when the formatter produces XML for every descriptor, including dropped duplicates. Then the keys are the distinct names and no value is a raw string. A failure is the exception of some descriptor the formatter failed on. Its result is that of the shared builder, so the entries are the first descriptors' entries and a failure carries the first throwing descriptor's exception. |
| ExamplesConverter.ToOpenApiExamplesDictionaryCsv | src/Swashbuckle.AspNetCore.Filters/Examples/ExamplesConverter.cs:58-62 | Succeeds exactly when every descriptor is scalar or its formatter outcome is not an "other" error. Then the keys are the distinct names and no value is raw. A failure is the serialisation error of some non-scalar descriptor. Its result is that of the shared builder, so the entries are the first descriptors' entries and a failure carries the first throwing descriptor's exception. |
| ExamplesConverter.ToOpenApiExamplesDictionaryJson | src/Swashbuckle.AspNetCore.Filters/Examples/ExamplesConverter.cs:64-68 | Succeeds exactly when the formatter produces JSON for every descriptor. Then the keys are the distinct names and every value is a raw string. A failure is the exception of some descriptor the formatter failed on. Its result is that of the shared builder, so the entries are the first descriptors' entries and a failure carries the first throwing descriptor's exception. |
| ExamplesConverterProperties.CsvScalarIgnoresFormatter | src/Swashbuckle.AspNetCore.Filters/Examples/ExamplesConverter.cs:26-30 | For a scalar value, CSV gives its ToString whatever the formatter is, so the formatter is never consulted. |
| ExamplesConverterProperties.NotFoundRecoveredOnlyByCsv | src/Swashbuckle.AspNetCore.Filters/Examples/ExamplesConverter.cs:32-49 | With no formatter registered, JSON and XML fail with FormatterNotFoundException. CSV of a non-scalar gives the "No formatter found" placeholder. |
| ExamplesConverterProperties.OtherErrorsPropagate | src/Swashbuckle.AspNetCore.Filters/Examples/ExamplesConverter.cs:32-49 | A formatter failure other than "not found" leaves all three serialisers as the same serialisation error (for CSV, on non-scalar values). |
| ExamplesConverterProperties.NamesAppend | src/Swashbuckle.AspNetCore.Filters/Examples/ExamplesConverter.cs:74-75 | Appending a descriptor adds exactly its name to the keys. |
| ExamplesConverterProperties.FirstIndexUnique | src/Swashbuckle.AspNetCore.Filters/Examples/ExamplesConverter.cs:83-86 | Any position whose name no earlier descriptor carries is the first position of that name. |
| ExamplesConverterProperties.LaterDuplicateIgnored | src/Swashbuckle.AspNetCore.Filters/Examples/ExamplesConverter.cs:83-86 | Appending a descriptor whose name is already taken, and whose conversion does not throw, leaves the result unchanged. |
| ExamplesConverterProperties.SameEntriesAfterDuplicate | src/Swashbuckle.AspNetCore.Filters/Examples/ExamplesConverter.cs:83-86 | When the shorter input succeeds, appending such a duplicate gives the same dictionary. |
| ExamplesConverterProperties.DuplicateKeepsKeys | src/Swashbuckle.AspNetCore.Filters/Examples/ExamplesConverter.cs:74-86 | Appending such a duplicate keeps the call successful and the key set unchanged. |
| ExamplesConverterProperties.FailureFixedByPrefix | src/Swashbuckle.AspNetCore.Filters/Examples/ExamplesConverter.cs:74-81 | Once a prefix of the input fails, any further descriptors leave the failure and its exception unchanged. |
| ExamplesConverterProperties.DiscardedDuplicateStillAborts | src/Swashbuckle.AspNetCore.Filters/Examples/ExamplesConverter.cs:74-86 | A later duplicate whose conversion throws aborts the call, although its entry would be dropped. |
| ExamplesConverterProperties.NamesCount | src/Swashbuckle.AspNetCore.Filters/Examples/ExamplesConverter.cs:74-75 | There are at most as many distinct names as descriptors, and as many exactly when no name repeats. |
| ExamplesConverterProperties.DictionarySize | src/Swashbuckle.AspNetCore.Filters/Examples/ExamplesConverter.cs:84-86 | A successful dictionary has at most one entry per descriptor, and exactly one per descriptor when the names are pairwise distinct. |
| ExamplesConverterProperties.CsvScenario | src/Swashbuckle.AspNetCore.Filters/Examples/ExamplesConverter.cs:58-62 | Descriptors "a"→42, "a"→99, "b"→"x" give, over CSV and whatever the formatter, exactly {"a": "42", "b": "x"}. |
| ExamplesConverterProperties.SampleDictionary | src/Swashbuckle.AspNetCore.Filters/Examples/ExamplesConverter.cs:70-89 | The worked case's dictionary for any converter that renders 42 as "42" and "x" as "x" and does not fail on 99. |
| ExamplesConverterProperties.SampleEntries | src/Swashbuckle.AspNetCore.Filters/Examples/ExamplesConverter.cs:83-86 | In the worked case the keys are {"a", "b"}, "a" holds the first descriptor's "42" and "b" holds "x". |

## Left out

- The MVC output formatter is not part of this model. `MvcOutputFormatter.Serialize` is a function parameter with three outcomes: text, "formatter not found", and any other failure with a message.
- The XML pretty-printer (`FormatXml`) is an arbitrary function of the formatter's text. Its own behaviour, including failures on malformed XML, is not modelled.
- The runtime type test (`IsPrimitive || IsValueType || == typeof(string)`) and `ToString` are functions supplied with the platform, not reflection. The worked case fixes them for its own value type.
- Null example values and null names are not modelled. In the CSV serialiser a null value throws on `GetType` (line 26). For XML and JSON a null value goes to the formatter, which is not modelled. A null key would make `ToDictionary` throw.
- The media-type headers are tags. Their header strings are recorded by `HeaderText`, but header parsing is not modelled.
- An `OpenApiString` is modelled as its text with the explicit flag and the raw-string flag. Other members of the OpenAPI object model are left out.
- The source's example-converter delegate (`exampleConverter`) is a `Format` tag that selects one of the three serialisers. The three public entry points pass exactly these three delegates.
- Lazy evaluation and enumeration order of LINQ are not modelled beyond what they determine: every descriptor is converted before the dictionary is built. The dictionary is an unordered map.
- The converter object is a datatype holding its formatter. The source's class has only a readonly field set by its constructor, and no method changes it.

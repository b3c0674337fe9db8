# The OpenSearch terms query, modelled in Dafny

This project models `TermsQueryBuilder`, the OpenSearch query builder that
matches documents whose field holds any of a list of terms. The terms are
either given inline or fetched from a field of another stored document (a
*terms lookup*).

What the model covers:

- **Values and storage** (`values.dfy`, `convert.dfy`).
  - A term is a Java object tagged by its exact class: Byte, Short, Integer
    or Long (as bounded integers), Float or Double (as opaque bit patterns),
    Boolean, String, BytesRef (UTF-8 bytes), CharBuffer, or null.
  - `convert` fixes one compact representation for the whole list:
    - all integer types become a long array;
    - all Strings and BytesRefs become one byte blob with an `int[]` of end
      offsets, whose running sum overflows exactly as `Math.addExact` does;
    - anything else becomes a plain list with Strings replaced by BytesRefs;
    - an empty list becomes the empty list.
  - `convertBack` gives the user-facing view, decoding BytesRefs back to
    Strings.
  - The blob-building loop is an imperative method. It is proved equal to the
    specification function `Converted`.
  - UTF-8 encoding and decoding are modelled in `utf8.dfy`, with the round
    trip proved.
- **The node** (`terms_query.dfy`).
  - A field name plus exactly one payload: inline values, a lookup, or the
    supplier of a registered fetch.
  - The constructors and their argument checks, `values()`, `doEquals`,
    the single-step `doRewrite`, the guards of `doToQuery`, and
    `doWriteTo` with the stream constructor.
  - A rewrite returns the new query, the asynchronous fetches it
    registered, and the rewrite context after it. Each lookup gets a
    supplier the context has not handed out before. A completed fetch fills
    that supplier's entry in the context.
- **Parsing** (`xcontent.dfy`).
  - `fromXContent` and `parseValues` over an abstract token stream. A null
    value is a token of its own, so a value token never carries null.
  - Both are loop methods, proved equal to a recursive specification of the
    same token loop.

`convert`'s doc comment says String, BytesRef *and* CharBuffer lists are
compacted. The code's `STRING_TYPES` set holds only BytesRef and String, so
a list containing a CharBuffer takes the general branch and keeps the
CharBuffer unchanged. The model follows the code (`TermsValues.CharBufferKeptAsIs`).

## Model

| member | source | states |
|---|---|---|
| Utf8.DecodeEncode | server/src/main/java/org/opensearch/index/query/TermsQueryBuilder.java:334-352 | decoding the UTF-8 bytes of a String (as `utf8ToString` does on the BytesRef `copyChars` built) gives the String back |
| Utf8.EncodeInjective | server/src/main/java/org/opensearch/index/query/TermsQueryBuilder.java:297-298 | two Strings have the same UTF-8 bytes exactly when they are equal |
| TermsValues.EndOffsets | server/src/main/java/org/opensearch/index/query/TermsQueryBuilder.java:301-305 | when the blob fits an int, one end offset per element, each the byte length of the blob up to and including that element |
| TermsValues.ConcatPrefix | server/src/main/java/org/opensearch/index/query/TermsQueryBuilder.java:300 | the bytes written for the first n elements are a prefix of the bytes written for all of them |
| TermsValues.ConvertedSize | server/src/main/java/org/opensearch/index/query/TermsQueryBuilder.java:263-326 | a successful `convert` yields a readable list of the input's size; an empty input yields the empty list |
| TermsValues.IntegerBranch | server/src/main/java/org/opensearch/index/query/TermsQueryBuilder.java:268-282 | a list of integer types becomes a long array whose element i is a Long of input i's value |
| TermsValues.StringBranchTaken | server/src/main/java/org/opensearch/index/query/TermsQueryBuilder.java:284-307 | a non-empty list of Strings/BytesRefs becomes the blob with its end offsets, or fails with an overflow when the bytes exceed Integer.MAX_VALUE |
| TermsValues.StringBranchOffsets | server/src/main/java/org/opensearch/index/query/TermsQueryBuilder.java:286-321 | overflow exactly when the blob outgrows an int; otherwise offsets never decrease, offset k minus offset k-1 is element k's byte length, and the last offset is the blob length |
| TermsValues.StringBranchGet | server/src/main/java/org/opensearch/index/query/TermsQueryBuilder.java:309-315 | element i sliced out of the blob is exactly the bytes of input i |
| TermsValues.MixedBranchGet | server/src/main/java/org/opensearch/index/query/TermsQueryBuilder.java:325 | a list that is neither all integers nor all strings is kept in order with Strings replaced by BytesRefs |
| TermsValues.CharBufferKeptAsIs | server/src/main/java/org/opensearch/index/query/TermsQueryBuilder.java:235 | a list holding a CharBuffer is never compacted and keeps the CharBuffer unchanged |
| TermsValues.ConvertBackConverted | server/src/main/java/org/opensearch/index/query/TermsQueryBuilder.java:328-352 | `convertBack(convert(list))` gives integers back as Longs of the same value and every other element in its user-facing form |
| TermsValues.UserValueOfBytesRef | server/src/main/java/org/opensearch/index/query/TermsQueryBuilder.java:343-346 | a String that `convert` or `parseValues` turned into a BytesRef shows through `convertBack` as the same String again; any other object shows as it would have without the conversion |
| TermsValues.ConvertBackOfStrings | server/src/main/java/org/opensearch/index/query/TermsQueryBuilder.java:334-352 | a list of Strings survives `convert` then `convertBack` unchanged |
| TermsValues.ConvertBackOfLongs | server/src/main/java/org/opensearch/index/query/TermsQueryBuilder.java:334-352 | a list of Longs survives `convert` then `convertBack` unchanged |
| TermsValues.EqualIntegerLists | server/src/main/java/org/opensearch/index/query/TermsQueryBuilder.java:268-282 | two integer lists compare equal after `convert` if and only if they hold the same values in order, whatever their boxed types |
| TermsValues.EqualStringLists | server/src/main/java/org/opensearch/index/query/TermsQueryBuilder.java:284-321 | two String lists compare equal after `convert` if and only if they are equal |
| TermsValues.IntegersNeverEqualStrings | server/src/main/java/org/opensearch/index/query/TermsQueryBuilder.java:268-321 | a converted non-empty integer list never equals a converted string list |
| TermsConvert.AddExact | server/src/main/java/org/opensearch/index/query/TermsQueryBuilder.java:304 | `Math.addExact` throws an ArithmeticException exactly when the sum leaves the int range, and otherwise returns the exact sum |
| TermsConvert.Convert | server/src/main/java/org/opensearch/index/query/TermsQueryBuilder.java:263-326 | the method returns exactly `Converted(list)` in all four branches |
| TermsConvert.ConvertStrings | server/src/main/java/org/opensearch/index/query/TermsQueryBuilder.java:286-307 | the byte-writing loop fails with an overflow if and only if the total byte count exceeds Integer.MAX_VALUE; otherwise it returns the concatenated bytes with every end offset right |
| TermsQuery.New | server/src/main/java/org/opensearch/index/query/TermsQueryBuilder.java:90-104 | empty field name, neither or both of values/lookup are rejected with the source's messages; success exactly otherwise (and when `convert` succeeds), storing the lookup or the converted values |
| TermsQuery.NewFromValues | server/src/main/java/org/opensearch/index/query/TermsQueryBuilder.java:175-186 | empty field name and null values are rejected with the source's messages; otherwise the node holds the converted values |
| TermsQuery.OfInts | server/src/main/java/org/opensearch/index/query/TermsQueryBuilder.java:122-124 | the int varargs constructor fails only on an empty name or a null array, and stores one term per int |
| TermsQuery.OfLongs | server/src/main/java/org/opensearch/index/query/TermsQueryBuilder.java:132-134 | the long varargs constructor fails only on an empty name or a null array, and stores one term per long |
| TermsQuery.OfFloats | server/src/main/java/org/opensearch/index/query/TermsQueryBuilder.java:142-147 | the float varargs constructor fails only on an empty name or a null array, and never compacts a non-empty list |
| TermsQuery.OfDoubles | server/src/main/java/org/opensearch/index/query/TermsQueryBuilder.java:155-157 | the double varargs constructor fails only on an empty name or a null array, and never compacts a non-empty list |
| TermsQuery.UserValues | server/src/main/java/org/opensearch/index/query/TermsQueryBuilder.java:220-222 | `values()` of inline values is their `convertBack` view, one element per stored term; for a lookup or a supplier the view is over null and using it throws a NullPointerException |
| TermsQuery.DoRewrite | server/src/main/java/org/opensearch/index/query/TermsQueryBuilder.java:508-545 | a rewrite fails only when resolving a supplier overflows `convert`; it registers one fetch exactly for a lookup, under a supplier not handed out before, and the context moves past that supplier; a terms result stays valid on the same field and is never a lookup |
| TermsQuery.DoToQuery | server/src/main/java/org/opensearch/index/query/TermsQueryBuilder.java:456-479 | a lookup, supplier or empty values must be rewritten first; more than `maxTermsCount` terms is rejected with the count and the limit; succeeds exactly for 1..max inline terms on a mapped field |
| TermsQuery.DoWriteTo | server/src/main/java/org/opensearch/index/query/TermsQueryBuilder.java:207-214 | writing fails exactly when a supplier is set; otherwise it writes the field name and the node's lookup, or its stored values as a list |
| TermsQuery.ReadFrom | server/src/main/java/org/opensearch/index/query/TermsQueryBuilder.java:198-204 | a node read from a stream keeps the field name, holds the lookup or the value list that was read, and never a supplier |
| TermsQuery.DoEqualsIsEquivalence | server/src/main/java/org/opensearch/index/query/TermsQueryBuilder.java:500-505 | `doEquals` is reflexive, symmetric and transitive |
| TermsQuery.IntsEqualLongs | server/src/main/java/org/opensearch/index/query/TermsQueryBuilder.java:122-134 | nodes built from ints and from longs with the same values are equal |
| TermsQuery.NumbersNeverEqualStrings | server/src/main/java/org/opensearch/index/query/TermsQueryBuilder.java:112-167 | a node built from a non-empty list of boxed numbers of any type (integers, floats, doubles, or a mix) never equals a node built from strings |
| TermsQuery.IntsNeverEqualStrings | server/src/main/java/org/opensearch/index/query/TermsQueryBuilder.java:122-124 | a node built from ints never equals a node built from strings |
| TermsQuery.FloatsNeverEqualDoubles | server/src/main/java/org/opensearch/index/query/TermsQueryBuilder.java:142-157 | a node built from floats never equals one built from doubles, whatever the values |
| TermsQuery.UserValuesOfStrings | server/src/main/java/org/opensearch/index/query/TermsQueryBuilder.java:112-114 | `values()` of a node built from strings gives back exactly those strings |
| TermsQuery.RewritePendingWaits | server/src/main/java/org/opensearch/index/query/TermsQueryBuilder.java:509-510 | a supplier whose fetch has not completed rewrites to the node itself |
| TermsQuery.RewritePendingResolves | server/src/main/java/org/opensearch/index/query/TermsQueryBuilder.java:509-510 | a completed supplier rewrites to a node holding the converted fetched terms on the same field |
| TermsQuery.RewriteLookupRegistersOne | server/src/main/java/org/opensearch/index/query/TermsQueryBuilder.java:511-518 | a lookup registers exactly one fetch for that lookup and becomes a node backed by its supplier |
| TermsQuery.RewriteEmptyMatchesNone | server/src/main/java/org/opensearch/index/query/TermsQueryBuilder.java:520-522 | empty inline values rewrite to match-none |
| TermsQuery.RewriteFolding | server/src/main/java/org/opensearch/index/query/TermsQueryBuilder.java:524-541 | with a shard context: a missing field gives match-none, a constant field gives match-all or match-none by membership, any other field keeps the node |
| TermsQuery.RewriteWithoutShardKeepsNode | server/src/main/java/org/opensearch/index/query/TermsQueryBuilder.java:524-544 | without a shard context, non-empty inline values rewrite to the node itself |
| TermsQuery.RewriteInlineIdempotent | server/src/main/java/org/opensearch/index/query/TermsQueryBuilder.java:520-545 | rewriting inline values registers nothing, yields the node or a trivial query, and rewriting a kept node again changes nothing |
| TermsQuery.LookupResolves | server/src/main/java/org/opensearch/index/query/TermsQueryBuilder.java:481-518 | a lookup, rewritten, fetched and rewritten again, is the node of the converted fetched terms on the same field |
| TermsQuery.MissingDocumentMatchesNone | server/src/main/java/org/opensearch/index/query/TermsQueryBuilder.java:486-522 | a lookup of a document without source resolves to no terms and then to match-none |
| TermsQuery.LookupSuppliersFresh | server/src/main/java/org/opensearch/index/query/TermsQueryBuilder.java:511-518 | two lookups rewritten one after the other get different suppliers: the nodes are not equal, and completing the first fetch leaves the second waiting |
| TermsQuery.TagsLookupScenario | server/src/main/java/org/opensearch/index/query/TermsQueryBuilder.java:481-518 | a lookup of a document whose "tags" are ["a", "b"] resolves to a node whose `values()` are exactly those strings |
| TermsQuery.ConstantFieldOnStrings | server/src/main/java/org/opensearch/index/query/TermsQueryBuilder.java:529-537 | on a constant field, a string node folds to match-all exactly when the constant is one of its strings, else to match-none |
| TermsQuery.ConstantFieldScenario | server/src/main/java/org/opensearch/index/query/TermsQueryBuilder.java:529-537 | constant "x" matches all for ["x", "y"] and nothing for ["y", "z"] |
| TermsQuery.WriteReadRoundTrip | server/src/main/java/org/opensearch/index/query/TermsQueryBuilder.java:198-214 | what `doWriteTo` writes reads back as an equal node, which writes the same again |
| TermsParser.ValuesFrom | server/src/main/java/org/opensearch/index/query/TermsQueryBuilder.java:438-448 | on success the last token read is END_ARRAY, every token before it in the array is a value, and the result is the collected values extended by one element per value token |
| TermsParser.ParseValues | server/src/main/java/org/opensearch/index/query/TermsQueryBuilder.java:438-448 | the value loop returns exactly what the recursive reading of the array gives |
| TermsParser.FromXContent | server/src/main/java/org/opensearch/index/query/TermsQueryBuilder.java:368-436 | the token loop, the field-name check and the constructor together return exactly `Parse(tokens)` |
| TermsParser.ValuesOfArray | server/src/main/java/org/opensearch/index/query/TermsQueryBuilder.java:438-448 | an array of values closed by END_ARRAY is read whole and in order, Strings as BytesRefs, ending just past END_ARRAY |
| TermsParser.NullValueRejected | server/src/main/java/org/opensearch/index/query/TermsQueryBuilder.java:441-444 | a null value in the array is refused with "No value specified for terms query" |
| TermsParser.ValuesFromNoNulls | server/src/main/java/org/opensearch/index/query/TermsQueryBuilder.java:438-448 | reading an array never adds a null to the collected values |
| TermsParser.FieldsFromNoNulls | server/src/main/java/org/opensearch/index/query/TermsQueryBuilder.java:378-423 | the token loop only ever holds values without a null |
| TermsParser.ParsedTermsNeverNull | server/src/main/java/org/opensearch/index/query/TermsQueryBuilder.java:441-445 | no term of a parsed query is null |
| TermsParser.ArrayQueryParses | server/src/main/java/org/opensearch/index/query/TermsQueryBuilder.java:378-435 | `{"f": [v...]}` parses to what the three-argument constructor builds from those values |
| TermsParser.LookupQueryParses | server/src/main/java/org/opensearch/index/query/TermsQueryBuilder.java:390-435 | `{"f": {lookup}}` parses to a lookup node on f, or fails as the constructor does on an empty name |
| TermsParser.FieldTakenOnce | server/src/main/java/org/opensearch/index/query/TermsQueryBuilder.java:381-404 | once a field is taken, the parsed values and lookup never change |
| TermsParser.SecondFieldRejected | server/src/main/java/org/opensearch/index/query/TermsQueryBuilder.java:381-404 | a second field's array or object after the first is refused with the matching message |
| TermsParser.SecondFieldAfterLookupRejected | server/src/main/java/org/opensearch/index/query/TermsQueryBuilder.java:381-404 | a lookup object followed by a second field's array or object is refused with the matching message |
| TermsParser.NoPayloadNoField | server/src/main/java/org/opensearch/index/query/TermsQueryBuilder.java:378-423 | tokens with no array or object never set the field name |
| TermsParser.MissingFieldRejected | server/src/main/java/org/opensearch/index/query/TermsQueryBuilder.java:425-433 | a body with no array or object is refused, with "requires a field name" when the loop itself ends normally |
| TermsParser.ParsedIsValid | server/src/main/java/org/opensearch/index/query/TermsQueryBuilder.java:435 | whatever parses is a node the constructors can build, never a supplier |

The specification functions below carry no contract of their own, or, for `Elements`, `ConvertBack`, `ValueTokens` and `ParsedValues`, only the element-wise reading of their `seq` bodies that the proofs use. What they mean is stated by the lemmas about them:

- `TermsValues.Converted` (`convert`, lines 263-326): its properties are stated by `ConvertedSize`, `IntegerBranch`, `StringBranchOffsets`, `StringBranchGet` and `MixedBranchGet`, and `TermsConvert.Convert` is proved equal to it.
- `TermsValues.Get` and `TermsValues.Size` (the `get`/`size` list views, lines 271-281 and 309-321): stated by the same lemmas, and by `ConvertedSize` for the size.
- `TermsValues.ConvertBack`, `UserValue` and `StringToBytesRef`: stated by `ConvertBackConverted`, `ConvertBackOfStrings`, `ConvertBackOfLongs` and `UserValueOfBytesRef`.
- `TermsQuery.DoEquals` (`doEquals`, lines 500-505): stated by `DoEqualsIsEquivalence`, `IntsEqualLongs`, `NumbersNeverEqualStrings`, `FloatsNeverEqualDoubles`, `LookupSuppliersFresh` and `WriteReadRoundTrip`.
- `TermsQuery.OfStrings` (lines 112-114): stated by `UserValuesOfStrings`, `ConstantFieldOnStrings` and `NumbersNeverEqualStrings`.
- `TermsQuery.ConstantTermsQuery` (lines 529-540), whose own contract says only that it is match-all or match-none: stated by `RewriteFolding` and `ConstantFieldOnStrings`.
- `TermsQuery.Fetch` and `TermsQuery.Complete` (lines 481-492 and 513-516): stated by `LookupResolves`, `MissingDocumentMatchesNone`, `TagsLookupScenario` and `LookupSuppliersFresh`.

## Left out

- The fetch itself (`GetRequest` with `_local` preference and routing, `client.get`) is network I/O. `TermsQuery.Fetch` stands in for it: its argument is the document source the get returned, or none.
- `extractRawValues` is not part of this model. A document source maps each path to the raw values found there.
- `registerAsyncAction` and `SetOnce` are concurrency. A registered fetch is returned as an `AsyncAction`, and a completed one fills the supplier's entry through `TermsQuery.Complete`.
- The rewrite driver that repeats rewrites until a fixed point is not part of this model. The lemmas chain single steps by hand.
- Lucene queries are abstracted. In `DoToQuery`, `fieldType.termsQuery` appears as a `FieldTermsQuery` record that holds the field's kind (`Constant(c)` included) and the stored elements. In `DoRewrite`, a constant field's `termsQuery` appears as match-all or match-none by membership, standing in for `ConstantFieldType.termsQuery`. MappedFieldType and ConstantFieldType are not part of this model.
- Constant-field membership in `DoRewrite` compares typed values over the `convertBack` view, so a constant String "1" does not match an integer term 1. How ConstantFieldType.termsQuery itself compares terms is not part of this model.
- The `assert false` after a constant field's query is neither match-all nor match-none cannot arise in the model.
- StreamInput/StreamOutput byte formats are not modelled. `doWriteTo` produces the three written fields, and `readGenericValue` gives back a plain list.
- `doXContent` is not modelled, nor are `printBoostAndQueryName` and `getWriteableName`.
- `doHashCode` is not modelled.
- `isTypeless`, and the lookup's type, are not modelled.
- `convert(Iterable)` only copies an iterable into a list. Inputs are sequences from the start.
- The private supplier constructor is the `Pending` node that a rewrite creates.
- New: a null field name and an empty one take the same branch of `Strings.isEmpty`. The model has only the empty name.
- ConvertStrings: an oversized blob fails with the `Math.addExact` overflow alone. The source appends the bytes to the output stream before the `addExact` check, and that stream's own capacity limit is not part of this model; it could fail first with a different exception.
- ConvertStrings: applies the overflow check to the first element's length too. The code stores it unchecked, but a Java `int` length can never exceed Integer.MAX_VALUE, so no reachable input behaves differently.
- UserValues: reports the failure when `values()` is called on a lookup or supplier node. In the source the call returns a view over null, and the NullPointerException comes only when `size()` or `get()` is used.
- The rewrite context hands out suppliers by number. The source makes a new `SetOnce` object per rewrite and compares suppliers by identity. The model gets the same freshness by numbering suppliers in order (`LookupSuppliersFresh`).
- ReadFrom: requires exactly one of lookup and values. The stream constructor does not check this. It holds for everything `doWriteTo` writes.
- TermsParser.ValuesFrom: a nested object or array inside the values array is refused as a missing value. So is a token stream that ends inside the array; what the source does there depends on `objectBytes()` at the end of input, which is not part of this model.
- TermsParser.ValuesFrom: assumes two helpers that are not part of this model. `parser.objectBytes()` is taken to report a text value as a String. `maybeConvertToBytesRef` is taken to turn a String into the BytesRef of its UTF-8 bytes and to keep every other object unchanged, so a value reported as a CharBuffer stays a CharBuffer, and no term-length check is applied.
- `TermsLookup.parseTermsLookup` is not part of this model. An object token after a field name carries the lookup it parses to.
- `ParseField.match` of a null current field name is taken to match neither `boost` nor `_name`.
- The deprecation handler is not modelled.
- Floating-point parsing is not modelled. The boost is kept as the value token's object, and applying it is not part of the node.
- `queryName` is kept as the value token's object, not re-read as text.
- Parse locations in exception messages are not modelled.
- Java Strings with unpaired UTF-16 surrogates are not modelled: strings are sequences of Unicode scalar values. Lucene's `UnicodeUtil` is not part of this model; the UTF-8 encoder here follows RFC 3629. Decoding malformed bytes to U+FFFD is the model's own choice.
- Float and Double are compared by bit pattern, as `Float.equals` and `Double.equals` do. The model takes the stored bits to be the canonical `floatToIntBits`/`doubleToLongBits` value. It does not fold the many NaN patterns into one, so two NaNs with different raw bits are unequal here but equal in the source. No floating-point arithmetic is modelled.

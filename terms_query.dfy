/**
 * The terms query node: its construction checks, equality, single-step
 * rewrite, and the guards on execution and serialisation.
 */
module TermsQuery {
  import opened Wrappers
  import opened Utf8
  import opened TermsValues

  const FieldNameNull: string := "field name cannot be null."
  const NoValueOrLookup: string := "No value or termsLookup specified for terms query"
  const BothValuesAndLookup: string := "Both values and termsLookup specified for terms query"
  const NoValue: string := "No value specified for terms query"
  const MustRewriteFirst: string := "query must be rewritten first"
  const FieldRewriteFirst: string := "Rewrite first"
  const SupplierNotSerializable: string := "supplier must be null, can't serialize suppliers, missing a rewriteAndFetch?"

  /** The reference to a stored document whose field at `path` supplies the terms. */
  datatype TermsLookup = TermsLookup(index: string, id: string, path: string, routing: Option<string>)

  /**
   * Exactly one of the node's three payload fields is set: the inline values,
   * the lookup reference, or the supplier of a registered fetch. A supplier is
   * known by its identity only.
   */
  datatype TermsSource =
    | Inline(values: Stored)
    | Lookup(lookup: TermsLookup)
    | Pending(supplier: nat)

  datatype TermsNode = TermsNode(fieldName: string, source: TermsSource)

  /** What a rewrite can produce: the terms node itself or a new one, match-all, or match-none. */
  datatype Query = Terms(node: TermsNode) | MatchAll | MatchNone

  /** A node the constructors can build: a named field, and inline values that can be read. */
  predicate Valid(n: TermsNode) {
    |n.fieldName| > 0 && (n.source.Inline? ==> WellFormed(n.source.values))
  }

  /**
   * The constructor shared by both variants: the field name must be non-empty
   * and exactly one of values and lookup must be given; values are stored
   * through `convert`, whose overflow propagates.
   */
  function New(fieldName: string, values: Option<seq<Value>>, lookup: Option<TermsLookup>): (r: Result<TermsNode, Error>)
    ensures |fieldName| == 0 ==> r == Err(IllegalArgument(FieldNameNull))
    ensures |fieldName| > 0 && values.None? && lookup.None? ==> r == Err(IllegalArgument(NoValueOrLookup))
    ensures |fieldName| > 0 && values.Some? && lookup.Some? ==> r == Err(IllegalArgument(BothValuesAndLookup))
    ensures r.Ok? <==>
      |fieldName| > 0 && values.Some? != lookup.Some? && (values.Some? ==> Converted(values.value).Ok?)
    ensures r.Ok? ==> Valid(r.value) && r.value.fieldName == fieldName
    ensures r.Ok? && lookup.Some? ==> r.value.source == Lookup(lookup.value)
    ensures r.Ok? && values.Some? ==> r.value.source == Inline(Converted(values.value).value)
  {
    if |fieldName| == 0 then Err(IllegalArgument(FieldNameNull))
    else if values.None? && lookup.None? then Err(IllegalArgument(NoValueOrLookup))
    else if values.Some? && lookup.Some? then Err(IllegalArgument(BothValuesAndLookup))
    else if lookup.Some? then Ok(TermsNode(fieldName, Lookup(lookup.value)))
    else
      ConvertedSize(values.value);
      var stored :- Converted(values.value);
      Ok(TermsNode(fieldName, Inline(stored)))
  }

  /** The constructor over an iterable of values, to which every typed varargs constructor delegates. */
  function NewFromValues(fieldName: string, values: Option<seq<Value>>): (r: Result<TermsNode, Error>)
    ensures |fieldName| == 0 ==> r == Err(IllegalArgument(FieldNameNull))
    ensures |fieldName| > 0 && values.None? ==> r == Err(IllegalArgument(NoValue))
    ensures r.Ok? <==> |fieldName| > 0 && values.Some? && Converted(values.value).Ok?
    ensures r.Ok? ==> Valid(r.value) && r.value == TermsNode(fieldName, Inline(Converted(values.value).value))
  {
    if |fieldName| == 0 then Err(IllegalArgument(FieldNameNull))
    else if values.None? then Err(IllegalArgument(NoValue))
    else
      ConvertedSize(values.value);
      var stored :- Converted(values.value);
      Ok(TermsNode(fieldName, Inline(stored)))
  }

  /** `TermsQueryBuilder(String, String...)`: the strings as a list of Strings. */
  function OfStrings(fieldName: string, values: Option<seq<string>>): Result<TermsNode, Error> {
    NewFromValues(fieldName, if values.None? then None else Some(seq(|values.value|, i requires 0 <= i < |values.value| => JString(values.value[i]))))
  }

  /** `TermsQueryBuilder(String, int...)`: ints are boxed as Integers; only the name and a null array can fail. */
  function OfInts(fieldName: string, values: Option<seq<i32>>): (r: Result<TermsNode, Error>)
    ensures r.Ok? <==> |fieldName| > 0 && values.Some?
    ensures r.Ok? ==> r.value.source.Inline? && Size(r.value.source.values) == |values.value|
  {
    NewFromValues(fieldName, if values.None? then None else Some(seq(|values.value|, i requires 0 <= i < |values.value| => JInteger(values.value[i]))))
  }

  /** `TermsQueryBuilder(String, long...)`: longs are boxed as Longs; only the name and a null array can fail. */
  function OfLongs(fieldName: string, values: Option<seq<i64>>): (r: Result<TermsNode, Error>)
    ensures r.Ok? <==> |fieldName| > 0 && values.Some?
    ensures r.Ok? ==> r.value.source.Inline? && Size(r.value.source.values) == |values.value|
  {
    NewFromValues(fieldName, if values.None? then None else Some(seq(|values.value|, i requires 0 <= i < |values.value| => JLong(values.value[i]))))
  }

  /** `TermsQueryBuilder(String, float...)`: floats (by bit pattern) are boxed as Floats and never compacted. */
  function OfFloats(fieldName: string, values: Option<seq<i32>>): (r: Result<TermsNode, Error>)
    ensures r.Ok? <==> |fieldName| > 0 && values.Some?
    ensures r.Ok? ==> r.value.source.Inline? && (|values.value| > 0 ==> r.value.source.values.Plain?)
  {
    if values.None? then NewFromValues(fieldName, None)
    else
      var list := seq(|values.value|, i requires 0 <= i < |values.value| => JFloat(values.value[i]));
      assert |list| > 0 ==> !IsIntegerType(list[0]) && !IsStringType(list[0]);
      NewFromValues(fieldName, Some(list))
  }

  /** `TermsQueryBuilder(String, double...)`: doubles (by bit pattern) are boxed as Doubles and never compacted. */
  function OfDoubles(fieldName: string, values: Option<seq<i64>>): (r: Result<TermsNode, Error>)
    ensures r.Ok? <==> |fieldName| > 0 && values.Some?
    ensures r.Ok? ==> r.value.source.Inline? && (|values.value| > 0 ==> r.value.source.values.Plain?)
  {
    if values.None? then NewFromValues(fieldName, None)
    else
      var list := seq(|values.value|, i requires 0 <= i < |values.value| => JDouble(values.value[i]));
      assert |list| > 0 ==> !IsIntegerType(list[0]) && !IsStringType(list[0]);
      NewFromValues(fieldName, Some(list))
  }

  /**
   * `doEquals`: same field, and pairwise-equal payload fields. Inline values
   * compare element by element (`List.equals`), a supplier only to itself.
   */
  predicate DoEquals(a: TermsNode, b: TermsNode)
    requires Valid(a) && Valid(b)
  {
    && a.fieldName == b.fieldName
    && match (a.source, b.source)
       case (Inline(x), Inline(y)) => Elements(x) == Elements(y)
       case (Lookup(x), Lookup(y)) => x == y
       case (Pending(x), Pending(y)) => x == y
       case _ => false
  }

  /**
   * `values()`: the `convertBack` view of the inline values. For a lookup or
   * a supplier the view wraps a null list, and reading it throws.
   */
  function UserValues(n: TermsNode): (r: Result<seq<Value>, Error>)
    requires Valid(n)
    ensures r.Ok? <==> n.source.Inline?
    ensures r.Err? ==> r.error == NullPointer
    ensures r.Ok? ==> r.value == ConvertBack(n.source.values) && |r.value| == Size(n.source.values)
  {
    if n.source.Inline? then Ok(ConvertBack(n.source.values)) else Err(NullPointer)
  }

  // ---------------------------------------------------------------------------
  // Rewriting

  /** What the mapping of the shard says about a field: missing, constant-valued, or anything else. */
  datatype FieldType = Absent | Constant(value: Value) | Other

  datatype ShardContext = ShardContext(mappings: map<string, FieldType>, maxTermsCount: int)

  function FieldMapper(sc: ShardContext, name: string): FieldType {
    if name in sc.mappings then sc.mappings[name] else Absent
  }

  /**
   * The rewrite context as one rewrite step sees it: the shard context if it
   * converts to one, the results of fetches that have completed (by supplier),
   * and the identity the next new supplier receives.
   */
  datatype RewriteContext = RewriteContext(shard: Option<ShardContext>, fetched: map<nat, seq<Value>>, nextSupplier: nat)

  /** An asynchronous fetch registered with the context; its result fills the supplier. */
  datatype AsyncAction = FetchTerms(supplier: nat, lookup: TermsLookup)

  /** A rewrite's result: the new query, the fetches it registered, and the context after it. */
  datatype Rewritten = Rewritten(query: Query, registered: seq<AsyncAction>, next: RewriteContext)

  /** A constant field's terms query: it matches everything or nothing, by membership of its value. */
  function ConstantTermsQuery(constant: Value, values: Stored): (q: Query)
    requires WellFormed(values)
    ensures q == MatchAll || q == MatchNone
  {
    if constant in ConvertBack(values) then MatchAll else MatchNone
  }

  /**
   * `doRewrite`: a supplier resolves into inline values (or waits), a lookup
   * registers one fetch and becomes a supplier, empty values match nothing,
   * and with a shard context a missing or constant field folds the node.
   */
  function DoRewrite(n: TermsNode, ctx: RewriteContext): (r: Result<Rewritten, Error>)
    requires Valid(n)
    ensures r.Err? ==> n.source.Pending? && r.error == ArithmeticOverflow
    ensures r.Ok? ==> (|r.value.registered| == 1 <==> n.source.Lookup?)
    ensures r.Ok? ==> |r.value.registered| <= 1
    ensures r.Ok? ==> r.value.next == ctx.(nextSupplier := ctx.nextSupplier + |r.value.registered|)
    ensures r.Ok? && n.source.Lookup? ==> r.value.registered[0].supplier == ctx.nextSupplier
    ensures r.Ok? && r.value.query.Terms? ==>
      var m := r.value.query.node;
      Valid(m) && m.fieldName == n.fieldName && !m.source.Lookup?
  {
    match n.source
    case Pending(supplier) =>
      if supplier !in ctx.fetched then Ok(Rewritten(Terms(n), [], ctx))
      else
        var m :- NewFromValues(n.fieldName, Some(ctx.fetched[supplier]));
        Ok(Rewritten(Terms(m), [], ctx))
    case Lookup(lookup) =>
      var supplier := ctx.nextSupplier;
      Ok(Rewritten(Terms(TermsNode(n.fieldName, Pending(supplier))), [FetchTerms(supplier, lookup)],
        ctx.(nextSupplier := supplier + 1)))
    case Inline(values) =>
      if Size(values) == 0 then Ok(Rewritten(MatchNone, [], ctx))
      else if ctx.shard.None? then Ok(Rewritten(Terms(n), [], ctx))
      else
        match FieldMapper(ctx.shard.value, n.fieldName)
        case Absent => Ok(Rewritten(MatchNone, [], ctx))
        case Constant(c) => Ok(Rewritten(ConstantTermsQuery(c, values), [], ctx))
        case Other => Ok(Rewritten(Terms(n), [], ctx))
  }

  /** A document's source as the raw values found at each path. */
  type DocumentSource = map<string, seq<Value>>

  /** The terms a fetch delivers: none when the document has no source, else those at the path. */
  function Fetch(lookup: TermsLookup, source: Option<DocumentSource>): seq<Value> {
    if source.None? then []
    else if lookup.path in source.value then source.value[lookup.path]
    else []
  }

  /** A registered fetch completes: its supplier now yields the fetched terms. */
  function Complete(ctx: RewriteContext, action: AsyncAction, source: Option<DocumentSource>): RewriteContext {
    ctx.(fetched := ctx.fetched[action.supplier := Fetch(action.lookup, source)])
  }

  // ---------------------------------------------------------------------------
  // Execution and serialisation

  /** The query handed to the field type: its name, its mapping, and the stored terms. */
  datatype FieldTermsQuery = FieldTermsQuery(fieldName: string, fieldType: FieldType, terms: seq<Value>)

  /**
   * `doToQuery`: only non-empty inline values execute, at most `maxTermsCount`
   * of them, and only on a field the shard maps.
   */
  function DoToQuery(n: TermsNode, sc: ShardContext): (r: Result<FieldTermsQuery, Error>)
    requires Valid(n)
    ensures !n.source.Inline? ==> r == Err(UnsupportedOperation(MustRewriteFirst))
    ensures n.source.Inline? && Size(n.source.values) == 0 ==> r == Err(UnsupportedOperation(MustRewriteFirst))
    ensures n.source.Inline? && Size(n.source.values) > sc.maxTermsCount && Size(n.source.values) > 0 ==>
      r == Err(TooManyTerms(Size(n.source.values), sc.maxTermsCount))
    ensures r.Ok? <==>
      n.source.Inline? && 0 < Size(n.source.values) <= sc.maxTermsCount && FieldMapper(sc, n.fieldName) != Absent
    ensures r.Ok? ==> r.value == FieldTermsQuery(n.fieldName, FieldMapper(sc, n.fieldName), Elements(n.source.values))
  {
    if !n.source.Inline? || Size(n.source.values) == 0 then Err(UnsupportedOperation(MustRewriteFirst))
    else if Size(n.source.values) > sc.maxTermsCount then Err(TooManyTerms(Size(n.source.values), sc.maxTermsCount))
    else if FieldMapper(sc, n.fieldName) == Absent then Err(IllegalState(FieldRewriteFirst))
    else Ok(FieldTermsQuery(n.fieldName, FieldMapper(sc, n.fieldName), Elements(n.source.values)))
  }

  /** The fields `doWriteTo` writes: the name, the optional lookup, and the values list or null. */
  datatype WireTerms = WireTerms(fieldName: string, lookup: Option<TermsLookup>, values: Option<seq<Value>>)

  /** `doWriteTo`: refuses a node whose supplier is set; otherwise writes its fields. */
  function DoWriteTo(n: TermsNode): (r: Result<WireTerms, Error>)
    requires Valid(n)
    ensures r.Err? <==> n.source.Pending?
    ensures r.Err? ==> r.error == IllegalState(SupplierNotSerializable)
    ensures r.Ok? ==> r.value.fieldName == n.fieldName
    ensures r.Ok? ==> (r.value.lookup.Some? <==> n.source.Lookup?) && (r.value.values.Some? <==> n.source.Inline?)
    ensures r.Ok? && n.source.Lookup? ==> r.value.lookup == Some(n.source.lookup)
    ensures r.Ok? && n.source.Inline? ==> r.value.values == Some(Elements(n.source.values))
  {
    match n.source
    case Pending(_) => Err(IllegalState(SupplierNotSerializable))
    case Lookup(lookup) => Ok(WireTerms(n.fieldName, Some(lookup), None))
    case Inline(values) => Ok(WireTerms(n.fieldName, None, Some(Elements(values))))
  }

  /** The stream constructor: the values come back as an ordinary list, the supplier as null. */
  function ReadFrom(w: WireTerms): (n: TermsNode)
    requires w.lookup.Some? != w.values.Some?
    ensures n.fieldName == w.fieldName && !n.source.Pending?
    ensures w.lookup.Some? ==> n.source == Lookup(w.lookup.value)
    ensures w.values.Some? ==> n.source == Inline(Plain(w.values.value))
  {
    if w.lookup.Some? then TermsNode(w.fieldName, Lookup(w.lookup.value))
    else TermsNode(w.fieldName, Inline(Plain(w.values.value)))
  }

  // ---------------------------------------------------------------------------
  // Properties

  /** `doEquals` is an equivalence on the nodes the constructors build. */
  lemma DoEqualsIsEquivalence(a: TermsNode, b: TermsNode, c: TermsNode)
    requires Valid(a) && Valid(b) && Valid(c)
    ensures DoEquals(a, a)
    ensures DoEquals(a, b) ==> DoEquals(b, a)
    ensures DoEquals(a, b) && DoEquals(b, c) ==> DoEquals(a, c)
  {
  }

  /** Nodes built from ints and from longs of the same values are equal: the encoding hides the boxed type. */
  lemma IntsEqualLongs(fieldName: string, xs: seq<i32>, ys: seq<i64>)
    requires |fieldName| > 0 && |xs| == |ys|
    requires forall i | 0 <= i < |xs| :: xs[i] as int == ys[i] as int
    ensures OfInts(fieldName, Some(xs)).Ok? && OfLongs(fieldName, Some(ys)).Ok?
    ensures DoEquals(OfInts(fieldName, Some(xs)).value, OfLongs(fieldName, Some(ys)).value)
  {
    var a := seq(|xs|, i requires 0 <= i < |xs| => JInteger(xs[i]));
    var b := seq(|ys|, i requires 0 <= i < |ys| => JLong(ys[i]));
    EqualIntegerLists(a, b);
  }

  /** A boxed number of any of the six numeric types. */
  predicate IsNumber(v: Value) {
    IsIntegerType(v) || v.JFloat? || v.JDouble?
  }

  /**
   * Nodes built from numbers (bytes, shorts, ints, longs, floats, doubles, or
   * a mix) never equal nodes built from strings, even when the digits agree.
   */
  lemma NumbersNeverEqualStrings(fieldName: string, a: seq<Value>, ss: seq<string>)
    requires |fieldName| > 0 && |a| > 0 && forall i | 0 <= i < |a| :: IsNumber(a[i])
    requires OfStrings(fieldName, Some(ss)).Ok?
    ensures NewFromValues(fieldName, Some(a)).Ok?
    ensures !DoEquals(NewFromValues(fieldName, Some(a)).value, OfStrings(fieldName, Some(ss)).value)
  {
    var b := seq(|ss|, i requires 0 <= i < |ss| => JString(ss[i]));
    ConvertedSize(a);
    ConvertedSize(b);
    assert !IsStringType(a[0]);
    if |ss| > 0 {
      assert AllStrings(b);
      StringBranchGet(b, 0);
      if AllIntegers(a) {
        IntegerBranch(a, 0);
      } else {
        MixedBranchGet(a, 0);
      }
    }
  }

  /** In particular, nodes built from ints never equal nodes built from strings. */
  lemma IntsNeverEqualStrings(fieldName: string, xs: seq<i32>, ss: seq<string>)
    requires |fieldName| > 0 && |xs| > 0
    requires OfStrings(fieldName, Some(ss)).Ok?
    ensures OfInts(fieldName, Some(xs)).Ok?
    ensures !DoEquals(OfInts(fieldName, Some(xs)).value, OfStrings(fieldName, Some(ss)).value)
  {
    NumbersNeverEqualStrings(fieldName, seq(|xs|, i requires 0 <= i < |xs| => JInteger(xs[i])), ss);
  }

  /** A supplier whose fetch has not completed leaves the node as it is and registers nothing. */
  lemma RewritePendingWaits(n: TermsNode, ctx: RewriteContext)
    requires Valid(n) && n.source.Pending? && n.source.supplier !in ctx.fetched
    ensures DoRewrite(n, ctx) == Ok(Rewritten(Terms(n), [], ctx))
  {
  }

  /** A completed supplier turns into a node holding the fetched values, converted, on the same field. */
  lemma RewritePendingResolves(n: TermsNode, ctx: RewriteContext)
    requires Valid(n) && n.source.Pending? && n.source.supplier in ctx.fetched
    ensures var fetched := ctx.fetched[n.source.supplier];
      DoRewrite(n, ctx) ==
        if Converted(fetched).Ok? then Ok(Rewritten(Terms(TermsNode(n.fieldName, Inline(Converted(fetched).value))), [], ctx))
        else Err(ArithmeticOverflow)
  {
  }

  /** A lookup registers exactly one fetch and becomes a node backed by that fetch's supplier. */
  lemma RewriteLookupRegistersOne(n: TermsNode, ctx: RewriteContext)
    requires Valid(n) && n.source.Lookup?
    ensures DoRewrite(n, ctx) ==
      Ok(Rewritten(Terms(TermsNode(n.fieldName, Pending(ctx.nextSupplier))), [FetchTerms(ctx.nextSupplier, n.source.lookup)],
        ctx.(nextSupplier := ctx.nextSupplier + 1)))
  {
  }

  /** Inline values that are empty match nothing, with or without a shard context. */
  lemma RewriteEmptyMatchesNone(n: TermsNode, ctx: RewriteContext)
    requires Valid(n) && n.source.Inline? && Size(n.source.values) == 0
    ensures DoRewrite(n, ctx) == Ok(Rewritten(MatchNone, [], ctx))
  {
  }

  /**
   * With a shard context, non-empty inline values fold: a missing field matches
   * nothing, a constant field matches all or nothing by membership of its value
   * and never keeps the node, and any other field keeps the node unchanged.
   */
  lemma RewriteFolding(n: TermsNode, ctx: RewriteContext)
    requires Valid(n) && n.source.Inline? && Size(n.source.values) > 0 && ctx.shard.Some?
    ensures DoRewrite(n, ctx).Ok? && DoRewrite(n, ctx).value.registered == []
    ensures FieldMapper(ctx.shard.value, n.fieldName) == Absent ==> DoRewrite(n, ctx).value.query == MatchNone
    ensures FieldMapper(ctx.shard.value, n.fieldName).Constant? ==>
      var c := FieldMapper(ctx.shard.value, n.fieldName).value;
      && !DoRewrite(n, ctx).value.query.Terms?
      && (DoRewrite(n, ctx).value.query == MatchAll <==> c in ConvertBack(n.source.values))
    ensures FieldMapper(ctx.shard.value, n.fieldName) == Other ==> DoRewrite(n, ctx).value.query == Terms(n)
  {
  }

  /** Without a shard context, non-empty inline values are left as they are. */
  lemma RewriteWithoutShardKeepsNode(n: TermsNode, ctx: RewriteContext)
    requires Valid(n) && n.source.Inline? && Size(n.source.values) > 0 && ctx.shard.None?
    ensures DoRewrite(n, ctx) == Ok(Rewritten(Terms(n), [], ctx))
  {
  }

  /**
   * Rewriting inline values is idempotent: the result is the node itself or
   * a trivial query, and rewriting a kept node again changes nothing.
   */
  lemma RewriteInlineIdempotent(n: TermsNode, ctx: RewriteContext)
    requires Valid(n) && n.source.Inline?
    ensures DoRewrite(n, ctx).Ok? && DoRewrite(n, ctx).value.registered == []
    ensures var q := DoRewrite(n, ctx).value.query; q == Terms(n) || q == MatchAll || q == MatchNone
    ensures DoRewrite(n, ctx).value.query.Terms? ==>
      DoRewrite(DoRewrite(n, ctx).value.query.node, ctx) == DoRewrite(n, ctx)
  {
  }

  /**
   * A lookup resolves in two rewrites around the fetch: the first registers
   * the fetch, and once it has completed the second yields the fetched values
   * inline on the same field.
   */
  lemma {:induction false} LookupResolves(n: TermsNode, ctx: RewriteContext, source: Option<DocumentSource>)
    requires Valid(n) && n.source.Lookup?
    requires Converted(Fetch(n.source.lookup, source)).Ok?
    ensures var first := DoRewrite(n, ctx);
      && first.Ok? && |first.value.registered| == 1 && first.value.query.Terms?
      && var done := Complete(first.value.next, first.value.registered[0], source);
         DoRewrite(first.value.query.node, done) ==
           Ok(Rewritten(Terms(TermsNode(n.fieldName, Inline(Converted(Fetch(n.source.lookup, source)).value))), [], done))
  {
    RewriteLookupRegistersOne(n, ctx);
    var first := DoRewrite(n, ctx).value;
    var done := Complete(first.next, first.registered[0], source);
    RewritePendingResolves(first.query.node, done);
  }

  /** A lookup of a document without source resolves to no values, and the next rewrite matches nothing. */
  lemma {:induction false} MissingDocumentMatchesNone(n: TermsNode, ctx: RewriteContext)
    requires Valid(n) && n.source.Lookup?
    ensures var first := DoRewrite(n, ctx);
      && first.Ok? && |first.value.registered| == 1 && first.value.query.Terms?
      && var done := Complete(first.value.next, first.value.registered[0], None);
         var second := DoRewrite(first.value.query.node, done);
         && second.Ok? && second.value.query.Terms?
         && DoRewrite(second.value.query.node, done) == Ok(Rewritten(MatchNone, [], done))
  {
    ConvertedSize([]);
    LookupResolves(n, ctx, None);
    var first := DoRewrite(n, ctx).value;
    var done := Complete(first.next, first.registered[0], None);
    var second := DoRewrite(first.query.node, done).value;
    RewriteEmptyMatchesNone(second.query.node, done);
  }

  /** Document "1" of index "d" holds tags ["a", "b"]: the lookup on "tags" resolves to exactly those strings. */
  lemma TagsLookupScenario(ctx: RewriteContext)
    ensures var n := TermsNode("tags", Lookup(TermsLookup("d", "1", "tags", None)));
      var doc: DocumentSource := map["tags" := [JString("a"), JString("b")]];
      var first := DoRewrite(n, ctx);
      && first.Ok? && |first.value.registered| == 1 && first.value.query.Terms?
      && var second := DoRewrite(first.value.query.node, Complete(first.value.next, first.value.registered[0], Some(doc)));
         && second.Ok? && second.value.query.Terms?
         && second.value.query.node.fieldName == "tags"
         && UserValues(second.value.query.node) == Ok([JString("a"), JString("b")])
  {
    var n := TermsNode("tags", Lookup(TermsLookup("d", "1", "tags", None)));
    var terms := [JString("a"), JString("b")];
    assert Concat(terms) == Encode("a") + Encode("b");
    ConvertBackOfStrings(terms);
    LookupResolves(n, ctx, Some(map["tags" := terms]));
  }

  /** On a constant string field, a node built from strings folds to match-all exactly when the constant is one of them. */
  lemma ConstantFieldOnStrings(fieldName: string, ss: seq<string>, c: string, ctx: RewriteContext)
    requires ctx.shard.Some? && FieldMapper(ctx.shard.value, fieldName) == Constant(JString(c))
    requires |ss| > 0 && OfStrings(fieldName, Some(ss)).Ok?
    ensures DoRewrite(OfStrings(fieldName, Some(ss)).value, ctx) ==
      Ok(Rewritten(if c in ss then MatchAll else MatchNone, [], ctx))
  {
    var list := seq(|ss|, i requires 0 <= i < |ss| => JString(ss[i]));
    ConvertBackOfStrings(list);
    assert JString(c) in list <==> c in ss by {
      if c in ss {
        var i :| 0 <= i < |ss| && ss[i] == c;
        assert list[i] == JString(c);
      }
    }
  }

  /** A constant field with value "x" matches all for terms ["x", "y"] and nothing for ["y", "z"]. */
  lemma ConstantFieldScenario(ctx: RewriteContext)
    requires ctx.shard.Some? && FieldMapper(ctx.shard.value, "f") == Constant(JString("x"))
    ensures var xy := OfStrings("f", Some(["x", "y"]));
      xy.Ok? && DoRewrite(xy.value, ctx) == Ok(Rewritten(MatchAll, [], ctx))
    ensures var yz := OfStrings("f", Some(["y", "z"]));
      yz.Ok? && DoRewrite(yz.value, ctx) == Ok(Rewritten(MatchNone, [], ctx))
  {
    ShortStringsConvert("x", "y");
    ShortStringsConvert("y", "z");
    ConstantFieldOnStrings("f", ["x", "y"], "x", ctx);
    ConstantFieldOnStrings("f", ["y", "z"], "x", ctx);
  }

  /** Two one-character strings fit the blob, so a node on them can be built. */
  lemma ShortStringsConvert(a: string, b: string)
    requires |a| == 1 && |b| == 1
    ensures OfStrings("f", Some([a, b])).Ok?
  {
    var list := seq(2, i requires 0 <= i < 2 => JString([a, b][i]));
    assert list == [JString(a), JString(b)];
    assert list[..1] == [JString(a)];
    assert Concat(list) == Concat([JString(a)]) + Encode(b);
    assert [JString(a)][..0] == [];
    assert Concat([JString(a)]) == Encode(a);
    assert |Encode(a)| <= 4 && |Encode(b)| <= 4 by {
      assert Encode(a) == EncodeChar(a[0]) + Encode(a[1..]);
      assert Encode(b) == EncodeChar(b[0]) + Encode(b[1..]);
    }
    assert !IsIntegerType(list[0]);
  }

  /** Suppliers the context has already handed out: every completed fetch belongs to one of them. */
  predicate Issued(ctx: RewriteContext) {
    forall s | s in ctx.fetched :: s < ctx.nextSupplier
  }

  /**
   * Each rewrite of a lookup makes a fresh supplier: two lookups rewritten one
   * after the other (even of the same document, on the same field) give
   * unequal nodes, and completing the first fetch leaves the second waiting.
   */
  lemma {:induction false} LookupSuppliersFresh(a: TermsNode, b: TermsNode, ctx: RewriteContext, source: Option<DocumentSource>)
    requires Valid(a) && a.source.Lookup? && Valid(b) && b.source.Lookup? && Issued(ctx)
    ensures var ra := DoRewrite(a, ctx);
      && ra.Ok? && ra.value.query.Terms? && Issued(ra.value.next)
      && var rb := DoRewrite(b, ra.value.next);
         && rb.Ok? && rb.value.query.Terms? && Issued(rb.value.next)
         && !DoEquals(ra.value.query.node, rb.value.query.node)
         && var done := Complete(rb.value.next, ra.value.registered[0], source);
            DoRewrite(rb.value.query.node, done) == Ok(Rewritten(rb.value.query, [], done))
  {
    RewriteLookupRegistersOne(a, ctx);
    var ra := DoRewrite(a, ctx).value;
    RewriteLookupRegistersOne(b, ra.next);
    var rb := DoRewrite(b, ra.next).value;
    var done := Complete(rb.next, ra.registered[0], source);
    assert rb.query.node.source.supplier == ctx.nextSupplier + 1;
    assert ctx.nextSupplier + 1 !in done.fetched;
    RewritePendingWaits(rb.query.node, done);
  }

  /** `values()` of a node built from strings gives back exactly those strings. */
  lemma UserValuesOfStrings(fieldName: string, ss: seq<string>)
    requires OfStrings(fieldName, Some(ss)).Ok?
    ensures UserValues(OfStrings(fieldName, Some(ss)).value) == Ok(seq(|ss|, i requires 0 <= i < |ss| => JString(ss[i])))
  {
    ConvertBackOfStrings(seq(|ss|, i requires 0 <= i < |ss| => JString(ss[i])));
  }

  /** Floats and Doubles never compare equal, so nodes built from them never do, whatever the bits. */
  lemma FloatsNeverEqualDoubles(fieldName: string, xs: seq<i32>, ys: seq<i64>)
    requires |fieldName| > 0 && |xs| > 0
    ensures OfFloats(fieldName, Some(xs)).Ok? && OfDoubles(fieldName, Some(ys)).Ok?
    ensures !DoEquals(OfFloats(fieldName, Some(xs)).value, OfDoubles(fieldName, Some(ys)).value)
  {
    var a := OfFloats(fieldName, Some(xs)).value.source.values;
    var b := OfDoubles(fieldName, Some(ys)).value.source.values;
    if |ys| > 0 {
      assert Elements(a)[0].JFloat? && !Elements(b)[0].JFloat?;
    }
  }

  /** Whatever doWriteTo writes, the stream constructor reads back as an equal node, and writes again the same. */
  lemma WriteReadRoundTrip(n: TermsNode)
    requires Valid(n) && !n.source.Pending?
    ensures DoWriteTo(n).Ok?
    ensures var w := DoWriteTo(n).value;
      w.lookup.Some? != w.values.Some?
      && Valid(ReadFrom(w)) && DoEquals(ReadFrom(w), n) && DoWriteTo(ReadFrom(w)) == Ok(w)
  {
    var w := DoWriteTo(n).value;
    if n.source.Inline? {
      var m := ReadFrom(w);
      assert Elements(m.source.values) == Elements(n.source.values);
    }
  }
}

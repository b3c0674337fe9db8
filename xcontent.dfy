/**
 * `fromXContent` and `parseValues`: the token loop that reads the body of a
 * terms query, over an abstract token stream.
 */
module TermsParser {
  import opened Wrappers
  import opened TermsValues
  import opened TermsQuery

  /**
   * The parser's tokens. A value token carries the Java object the parser
   * reports for it (a String for text, a boxed number, a Boolean). The object
   * after a field name stands for a terms lookup and carries the lookup it parses to.
   */
  datatype Token =
    | FieldNameTok(name: string)
    | StartObjectTok(lookup: TermsLookup)
    | StartArrayTok
    | EndArrayTok
    | EndObjectTok
    | ValueTok(value: Scalar)
    | NullTok

  /** The object a value token reports: never null, since a null is its own token. */
  type Scalar = v: Value | !v.JNull? witness JBoolean(false)

  function TokenName(t: Token): string {
    match t
    case FieldNameTok(_) => "FIELD_NAME"
    case StartObjectTok(_) => "START_OBJECT"
    case StartArrayTok => "START_ARRAY"
    case EndArrayTok => "END_ARRAY"
    case EndObjectTok => "END_OBJECT"
    case ValueTok(_) => "VALUE"
    case NullTok => "VALUE_NULL"
  }

  /** How Java renders a possibly-null name inside a message. */
  function Shown(name: Option<string>): string {
    if name.Some? then name.value else "null"
  }

  const BoostField: string := "boost"
  const NameField: string := "_name"
  const MultipleFields: string := "[terms] query does not support multiple fields"
  const RequiresFieldName: string :=
    "[terms] query requires a field name, followed by array of terms or a document lookup specification"

  function MoreThanOneField(fieldName: string, current: Option<string>): string {
    "[terms] query does not support more than one field. Already got: [" + fieldName + "] but also found [" + Shown(current) + "]"
  }

  function UnsupportedField(current: Option<string>): string {
    "[terms] query does not support [" + Shown(current) + "]"
  }

  function UnknownToken(t: Token, current: Option<string>): string {
    "[terms] unknown token [" + TokenName(t) + "] after [" + Shown(current) + "]"
  }

  /** The locals of the token loop. */
  datatype ParseState = ParseState(
    currentFieldName: Option<string>,
    fieldName: Option<string>,
    values: Option<seq<Value>>,
    termsLookup: Option<TermsLookup>,
    boost: Option<Value>,
    queryName: Option<Value>)

  const Initial: ParseState := ParseState(None, None, None, None, None, None)

  /** A parsed query: the node, with the boost and query name (absent means the default). */
  datatype ParsedTerms = ParsedTerms(node: TermsNode, boost: Option<Value>, queryName: Option<Value>)

  /**
   * `parseValues` from position `pos`, having collected `acc`: each value is
   * kept with Strings turned into BytesRefs, until the end of the array; a
   * null, or anything that is not a value, is a missing value. The result is
   * the values and the position after the end of the array.
   */
  function ValuesFrom(tokens: seq<Token>, pos: nat, acc: seq<Value>): (r: Result<(seq<Value>, nat), Error>)
    requires pos <= |tokens|
    ensures r.Ok? ==> pos < r.value.1 <= |tokens|
    ensures r.Ok? ==> tokens[r.value.1 - 1] == EndArrayTok
    ensures r.Ok? ==> forall i | pos <= i < r.value.1 - 1 :: tokens[i].ValueTok?
    ensures r.Ok? ==> |r.value.0| == |acc| + (r.value.1 - 1 - pos) && r.value.0[..|acc|] == acc
    decreases |tokens| - pos
  {
    if pos == |tokens| then Err(Parsing(NoValue))
    else match tokens[pos]
      case EndArrayTok => Ok((acc, pos + 1))
      case ValueTok(v) => ValuesFrom(tokens, pos + 1, acc + [StringToBytesRef(v)])
      case _ => Err(Parsing(NoValue))
  }

  /** The token loop of `fromXContent` from position `pos` in state `st`, up to the closing END_OBJECT. */
  function FieldsFrom(tokens: seq<Token>, pos: nat, st: ParseState): Result<ParseState, Error>
    requires pos <= |tokens|
    decreases |tokens| - pos
  {
    if pos == |tokens| then Err(NullPointer)
    else match tokens[pos]
      case EndObjectTok => Ok(st)
      case FieldNameTok(name) => FieldsFrom(tokens, pos + 1, st.(currentFieldName := Some(name)))
      case StartArrayTok =>
        if st.fieldName.Some? then Err(Parsing(MultipleFields))
        else
          var parsed := ValuesFrom(tokens, pos + 1, []);
          if parsed.Err? then Err(parsed.error)
          else FieldsFrom(tokens, parsed.value.1, st.(fieldName := st.currentFieldName, values := Some(parsed.value.0)))
      case StartObjectTok(lookup) =>
        if st.fieldName.Some? then Err(Parsing(MoreThanOneField(st.fieldName.value, st.currentFieldName)))
        else FieldsFrom(tokens, pos + 1, st.(fieldName := st.currentFieldName, termsLookup := Some(lookup)))
      case ValueTok(v) =>
        if st.currentFieldName == Some(BoostField) then FieldsFrom(tokens, pos + 1, st.(boost := Some(v)))
        else if st.currentFieldName == Some(NameField) then FieldsFrom(tokens, pos + 1, st.(queryName := Some(v)))
        else Err(Parsing(UnsupportedField(st.currentFieldName)))
      case _ => Err(Parsing(UnknownToken(tokens[pos], st.currentFieldName)))
  }

  /** `fromXContent`: the token loop, the field-name check, then the three-argument constructor. */
  function Parse(tokens: seq<Token>): Result<ParsedTerms, Error> {
    var st :- FieldsFrom(tokens, 0, Initial);
    if st.fieldName.None? then Err(Parsing(RequiresFieldName))
    else
      var node :- New(st.fieldName.value, st.values, st.termsLookup);
      Ok(ParsedTerms(node, st.boost, st.queryName))
  }

  /** `parseValues`: appends value after value to a list until END_ARRAY. */
  method ParseValues(tokens: seq<Token>, start: nat) returns (r: Result<(seq<Value>, nat), Error>)
    requires start <= |tokens|
    ensures r == ValuesFrom(tokens, start, [])
  {
    var values: seq<Value> := [];
    var pos := start;
    while true
      invariant start <= pos <= |tokens|
      invariant ValuesFrom(tokens, pos, values) == ValuesFrom(tokens, start, [])
      decreases |tokens| - pos
    {
      if pos == |tokens| {
        return Err(Parsing(NoValue));
      }
      var token := tokens[pos];
      if token.EndArrayTok? {
        return Ok((values, pos + 1));
      }
      if !token.ValueTok? {
        return Err(Parsing(NoValue));
      }
      values := values + [StringToBytesRef(token.value)];
      pos := pos + 1;
    }
  }

  /** `fromXContent`: reads tokens up to END_OBJECT, updating the loop's locals, then builds the node. */
  method FromXContent(tokens: seq<Token>) returns (r: Result<ParsedTerms, Error>)
    ensures r == Parse(tokens)
  {
    var currentFieldName: Option<string> := None;
    var fieldName: Option<string> := None;
    var values: Option<seq<Value>> := None;
    var termsLookup: Option<TermsLookup> := None;
    var boost: Option<Value> := None;
    var queryName: Option<Value> := None;
    var pos := 0;
    while true
      invariant pos <= |tokens|
      invariant FieldsFrom(tokens, pos, ParseState(currentFieldName, fieldName, values, termsLookup, boost, queryName))
             == FieldsFrom(tokens, 0, Initial)
      decreases |tokens| - pos
    {
      if pos == |tokens| {
        return Err(NullPointer);
      }
      var token := tokens[pos];
      if token.EndObjectTok? {
        break;
      } else if token.FieldNameTok? {
        currentFieldName := Some(token.name);
        pos := pos + 1;
      } else if token.StartArrayTok? {
        if fieldName.Some? {
          return Err(Parsing(MultipleFields));
        }
        fieldName := currentFieldName;
        var parsed := ParseValues(tokens, pos + 1);
        if parsed.Err? {
          return Err(parsed.error);
        }
        values := Some(parsed.value.0);
        pos := parsed.value.1;
      } else if token.StartObjectTok? {
        if fieldName.Some? {
          return Err(Parsing(MoreThanOneField(fieldName.value, currentFieldName)));
        }
        fieldName := currentFieldName;
        termsLookup := Some(token.lookup);
        pos := pos + 1;
      } else if token.ValueTok? {
        if currentFieldName == Some(BoostField) {
          boost := Some(token.value);
        } else if currentFieldName == Some(NameField) {
          queryName := Some(token.value);
        } else {
          return Err(Parsing(UnsupportedField(currentFieldName)));
        }
        pos := pos + 1;
      } else {
        return Err(Parsing(UnknownToken(token, currentFieldName)));
      }
    }
    if fieldName.None? {
      return Err(Parsing(RequiresFieldName));
    }
    var node := New(fieldName.value, values, termsLookup);
    if node.Err? {
      return Err(node.error);
    }
    return Ok(ParsedTerms(node.value, boost, queryName));
  }

  // ---------------------------------------------------------------------------
  // Properties

  /** The value tokens of a list of values. */
  function ValueTokens(vs: seq<Scalar>): (ts: seq<Token>)
    ensures |ts| == |vs|
    ensures forall i | 0 <= i < |vs| :: ts[i] == ValueTok(vs[i])
  {
    seq(|vs|, i requires 0 <= i < |vs| => ValueTok(vs[i]))
  }

  /** What `parseValues` collects from a list of values: Strings as BytesRefs, the rest as is. */
  function ParsedValues(vs: seq<Scalar>): (ps: seq<Value>)
    ensures |ps| == |vs|
    ensures forall i | 0 <= i < |vs| :: ps[i] == StringToBytesRef(vs[i])
  {
    seq(|vs|, i requires 0 <= i < |vs| => StringToBytesRef(vs[i]))
  }

  /** The values of a non-empty list are its first value followed by those of the rest. */
  lemma ParsedValuesCons(vs: seq<Scalar>)
    requires |vs| > 0
    ensures ParsedValues(vs) == [StringToBytesRef(vs[0])] + ParsedValues(vs[1..])
  {
    assert ParsedValues(vs)[1..] == ParsedValues(vs[1..]);
  }

  lemma AppendAssociative(a: seq<Value>, b: seq<Value>, c: seq<Value>)
    ensures (a + b) + c == a + (b + c)
  {
  }

  /** The token slice after the first value token holds the tokens of the remaining values. */
  lemma ValueTokensTail(tokens: seq<Token>, pos: nat, vs: seq<Scalar>)
    requires |vs| > 0 && pos + |vs| <= |tokens|
    requires tokens[pos..pos + |vs|] == ValueTokens(vs)
    ensures tokens[pos] == ValueTok(vs[0])
    ensures tokens[pos + 1..pos + 1 + |vs[1..]|] == ValueTokens(vs[1..])
  {
    assert tokens[pos] == tokens[pos..pos + |vs|][0];
    assert tokens[pos + 1..pos + 1 + |vs[1..]|] == tokens[pos..pos + |vs|][1..];
    assert ValueTokens(vs)[1..] == ValueTokens(vs[1..]);
  }

  /** An array of values closed by END_ARRAY is read whole, in order, up to just past END_ARRAY. */
  lemma {:induction false} ValuesOfArray(tokens: seq<Token>, pos: nat, vs: seq<Scalar>, acc: seq<Value>)
    requires pos + |vs| < |tokens|
    requires tokens[pos..pos + |vs|] == ValueTokens(vs)
    requires tokens[pos + |vs|] == EndArrayTok
    ensures ValuesFrom(tokens, pos, acc) == Ok((acc + ParsedValues(vs), pos + |vs| + 1))
    decreases |vs|
  {
    if vs == [] {
      assert acc + ParsedValues(vs) == acc;
    } else {
      ValueTokensTail(tokens, pos, vs);
      var first := StringToBytesRef(vs[0]);
      ValuesOfArray(tokens, pos + 1, vs[1..], acc + [first]);
      ParsedValuesCons(vs);
      AppendAssociative(acc, [first], ParsedValues(vs[1..]));
    }
  }

  /** A null inside the value array is refused as a missing value. */
  lemma {:induction false} NullValueRejected(tokens: seq<Token>, pos: nat, vs: seq<Scalar>, acc: seq<Value>)
    requires pos + |vs| < |tokens|
    requires tokens[pos..pos + |vs|] == ValueTokens(vs)
    requires tokens[pos + |vs|] == NullTok
    ensures ValuesFrom(tokens, pos, acc) == Err(Parsing(NoValue))
    decreases |vs|
  {
    if vs != [] {
      ValueTokensTail(tokens, pos, vs);
      NullValueRejected(tokens, pos + 1, vs[1..], acc + [StringToBytesRef(vs[0])]);
    }
  }

  /** `{"f": [v...]}` parses to the node the constructor builds from the values, with default boost and name. */
  lemma ArrayQueryParses(f: string, vs: seq<Scalar>)
    ensures var tokens := [FieldNameTok(f), StartArrayTok] + ValueTokens(vs) + [EndArrayTok, EndObjectTok];
      var built := New(f, Some(ParsedValues(vs)), None);
      Parse(tokens) == if built.Ok? then Ok(ParsedTerms(built.value, None, None)) else Err(built.error)
  {
    var tokens := [FieldNameTok(f), StartArrayTok] + ValueTokens(vs) + [EndArrayTok, EndObjectTok];
    assert tokens[2..2 + |vs|] == ValueTokens(vs);
    assert tokens[2 + |vs|] == EndArrayTok;
    ValuesOfArray(tokens, 2, vs, []);
    assert [] + ParsedValues(vs) == ParsedValues(vs);
    assert tokens[3 + |vs|] == EndObjectTok;
    var named := Initial.(currentFieldName := Some(f));
    var filled := named.(fieldName := Some(f), values := Some(ParsedValues(vs)));
    assert FieldsFrom(tokens, 3 + |vs|, filled) == Ok(filled);
    assert FieldsFrom(tokens, 1, named) == FieldsFrom(tokens, 3 + |vs|, filled);
    assert FieldsFrom(tokens, 0, Initial) == Ok(filled);
  }

  /** `{"f": {lookup}}` parses to a lookup node on f. */
  lemma LookupQueryParses(f: string, lookup: TermsLookup)
    ensures Parse([FieldNameTok(f), StartObjectTok(lookup), EndObjectTok]) ==
      if |f| > 0 then Ok(ParsedTerms(TermsNode(f, Lookup(lookup)), None, None))
      else Err(IllegalArgument(FieldNameNull))
  {
    var tokens := [FieldNameTok(f), StartObjectTok(lookup), EndObjectTok];
    var named := Initial.(currentFieldName := Some(f));
    var filled := named.(fieldName := Some(f), termsLookup := Some(lookup));
    assert FieldsFrom(tokens, 2, filled) == Ok(filled);
    assert FieldsFrom(tokens, 1, named) == Ok(filled);
    assert FieldsFrom(tokens, 0, Initial) == Ok(filled);
  }

  /**
   * Once a field has been taken, the values and the lookup never change: a
   * second array or object is refused rather than replacing the first.
   */
  lemma {:induction false} FieldTakenOnce(tokens: seq<Token>, pos: nat, st: ParseState)
    requires pos <= |tokens| && st.fieldName.Some?
    ensures FieldsFrom(tokens, pos, st).Ok? ==>
      var end := FieldsFrom(tokens, pos, st).value;
      end.fieldName == st.fieldName && end.values == st.values && end.termsLookup == st.termsLookup
    decreases |tokens| - pos
  {
    if pos < |tokens| {
      match tokens[pos]
      case FieldNameTok(name) =>
        FieldTakenOnce(tokens, pos + 1, st.(currentFieldName := Some(name)));
      case ValueTok(v) =>
        if st.currentFieldName == Some(BoostField) {
          FieldTakenOnce(tokens, pos + 1, st.(boost := Some(v)));
        } else if st.currentFieldName == Some(NameField) {
          FieldTakenOnce(tokens, pos + 1, st.(queryName := Some(v)));
        }
      case _ =>
    }
  }

  /** An array followed by a second field's array or object is refused, with the message of the second kind. */
  lemma SecondFieldRejected(a: string, vs: seq<Scalar>, b: string, second: Token, rest: seq<Token>)
    requires second.StartArrayTok? || second.StartObjectTok?
    ensures var tokens := [FieldNameTok(a), StartArrayTok] + ValueTokens(vs) + [EndArrayTok, FieldNameTok(b), second] + rest;
      Parse(tokens) == Err(Parsing(if second.StartArrayTok? then MultipleFields else MoreThanOneField(a, Some(b))))
  {
    var tokens := [FieldNameTok(a), StartArrayTok] + ValueTokens(vs) + [EndArrayTok, FieldNameTok(b), second] + rest;
    assert tokens[2..2 + |vs|] == ValueTokens(vs);
    assert tokens[2 + |vs|] == EndArrayTok;
    ValuesOfArray(tokens, 2, vs, []);
    assert tokens[3 + |vs|] == FieldNameTok(b);
    assert tokens[4 + |vs|] == second;
    var named := Initial.(currentFieldName := Some(a));
    var filled := named.(fieldName := Some(a), values := Some([] + ParsedValues(vs)));
    var err := Err(Parsing(if second.StartArrayTok? then MultipleFields else MoreThanOneField(a, Some(b))));
    assert FieldsFrom(tokens, 4 + |vs|, filled.(currentFieldName := Some(b))) == err;
    assert FieldsFrom(tokens, 3 + |vs|, filled) == err;
    assert FieldsFrom(tokens, 1, named) == err;
    assert FieldsFrom(tokens, 0, Initial) == err;
  }

  /** A lookup object followed by a second field's array or object is refused, with the message of the second kind. */
  lemma SecondFieldAfterLookupRejected(a: string, lookup: TermsLookup, b: string, second: Token, rest: seq<Token>)
    requires second.StartArrayTok? || second.StartObjectTok?
    ensures var tokens := [FieldNameTok(a), StartObjectTok(lookup), FieldNameTok(b), second] + rest;
      Parse(tokens) == Err(Parsing(if second.StartArrayTok? then MultipleFields else MoreThanOneField(a, Some(b))))
  {
    var tokens := [FieldNameTok(a), StartObjectTok(lookup), FieldNameTok(b), second] + rest;
    var named := Initial.(currentFieldName := Some(a));
    var filled := named.(fieldName := Some(a), termsLookup := Some(lookup));
    var err := Err(Parsing(if second.StartArrayTok? then MultipleFields else MoreThanOneField(a, Some(b))));
    assert FieldsFrom(tokens, 3, filled.(currentFieldName := Some(b))) == err;
    assert FieldsFrom(tokens, 2, filled) == err;
    assert FieldsFrom(tokens, 1, named) == err;
    assert FieldsFrom(tokens, 0, Initial) == err;
  }

  /** Without a field-carrying state, no token other than an array or object sets the field. */
  lemma {:induction false} NoPayloadNoField(tokens: seq<Token>, pos: nat, st: ParseState)
    requires pos <= |tokens|
    requires forall i | pos <= i < |tokens| :: !tokens[i].StartArrayTok? && !tokens[i].StartObjectTok?
    ensures FieldsFrom(tokens, pos, st).Ok? ==> FieldsFrom(tokens, pos, st).value.fieldName == st.fieldName
    decreases |tokens| - pos
  {
    if pos < |tokens| {
      match tokens[pos]
      case FieldNameTok(name) =>
        NoPayloadNoField(tokens, pos + 1, st.(currentFieldName := Some(name)));
      case ValueTok(v) =>
        if st.currentFieldName == Some(BoostField) {
          NoPayloadNoField(tokens, pos + 1, st.(boost := Some(v)));
        } else if st.currentFieldName == Some(NameField) {
          NoPayloadNoField(tokens, pos + 1, st.(queryName := Some(v)));
        }
      case _ =>
    }
  }

  /** A body with neither an array nor an object never names a field, and is refused. */
  lemma MissingFieldRejected(tokens: seq<Token>)
    requires forall i | 0 <= i < |tokens| :: !tokens[i].StartArrayTok? && !tokens[i].StartObjectTok?
    ensures Parse(tokens).Err?
    ensures FieldsFrom(tokens, 0, Initial).Ok? ==> Parse(tokens) == Err(Parsing(RequiresFieldName))
  {
    NoPayloadNoField(tokens, 0, Initial);
  }

  predicate NoNulls(vs: seq<Value>) {
    forall i | 0 <= i < |vs| :: !vs[i].JNull?
  }

  /** Reading an array adds no null to what was collected. */
  lemma {:induction false} ValuesFromNoNulls(tokens: seq<Token>, pos: nat, acc: seq<Value>)
    requires pos <= |tokens| && NoNulls(acc)
    ensures ValuesFrom(tokens, pos, acc).Ok? ==> NoNulls(ValuesFrom(tokens, pos, acc).value.0)
    decreases |tokens| - pos
  {
    if pos < |tokens| && tokens[pos].ValueTok? {
      var v := tokens[pos].value;
      assert NoNulls(acc + [StringToBytesRef(v)]);
      ValuesFromNoNulls(tokens, pos + 1, acc + [StringToBytesRef(v)]);
    }
  }

  /** The token loop only ever collects values without a null. */
  lemma {:induction false} FieldsFromNoNulls(tokens: seq<Token>, pos: nat, st: ParseState)
    requires pos <= |tokens| && (st.values.Some? ==> NoNulls(st.values.value))
    ensures FieldsFrom(tokens, pos, st).Ok? && FieldsFrom(tokens, pos, st).value.values.Some? ==>
      NoNulls(FieldsFrom(tokens, pos, st).value.values.value)
    decreases |tokens| - pos
  {
    if pos < |tokens| {
      match tokens[pos]
      case FieldNameTok(name) =>
        FieldsFromNoNulls(tokens, pos + 1, st.(currentFieldName := Some(name)));
      case StartArrayTok =>
        if st.fieldName.None? {
          ValuesFromNoNulls(tokens, pos + 1, []);
          var parsed := ValuesFrom(tokens, pos + 1, []);
          if parsed.Ok? {
            FieldsFromNoNulls(tokens, parsed.value.1, st.(fieldName := st.currentFieldName, values := Some(parsed.value.0)));
          }
        }
      case StartObjectTok(lookup) =>
        if st.fieldName.None? {
          FieldsFromNoNulls(tokens, pos + 1, st.(fieldName := st.currentFieldName, termsLookup := Some(lookup)));
        }
      case ValueTok(v) =>
        if st.currentFieldName == Some(BoostField) {
          FieldsFromNoNulls(tokens, pos + 1, st.(boost := Some(v)));
        } else if st.currentFieldName == Some(NameField) {
          FieldsFromNoNulls(tokens, pos + 1, st.(queryName := Some(v)));
        }
      case _ =>
    }
  }

  /** A parsed query never holds a null term: a null in the array is refused, never stored. */
  lemma ParsedTermsNeverNull(tokens: seq<Token>, i: nat)
    requires Parse(tokens).Ok? && Parse(tokens).value.node.source.Inline?
    requires i < Size(Parse(tokens).value.node.source.values)
    ensures WellFormed(Parse(tokens).value.node.source.values)
    ensures !Get(Parse(tokens).value.node.source.values, i).JNull?
  {
    FieldsFromNoNulls(tokens, 0, Initial);
    var st := FieldsFrom(tokens, 0, Initial).value;
    var list := st.values.value;
    ConvertedSize(list);
    if AllIntegers(list) {
      IntegerBranch(list, i);
    } else if AllStrings(list) {
      StringBranchGet(list, i);
    } else {
      MixedBranchGet(list, i);
    }
  }

  /** Whatever parses is a node the constructors could build, holding values or a lookup and no supplier. */
  lemma ParsedIsValid(tokens: seq<Token>)
    ensures Parse(tokens).Ok? ==> Valid(Parse(tokens).value.node) && !Parse(tokens).value.node.source.Pending?
  {
  }
}

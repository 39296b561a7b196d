/**
 * Request validation for the ingest API (src/lib/validation/ingest.ts): the
 * body of an "ingest everything" request and the query of a status request are
 * checked against two object schemas. A rejected value raises an error whose
 * message is "Validation error: " followed by the messages of every issue the
 * schema library reports, in schema key order, joined by ", ". Keys the schema
 * does not name are dropped from the accepted value.
 *
 * The issue messages are the default English texts of zod 3.
 */
module Validation {
  import opened Wrappers
  import opened Text
  import Ingest

  /** A parsed JSON body. JavaScript numbers are not modelled beyond their type. */
  datatype Json =
    | JNull
    | JBool(b: bool)
    | JNumber(n: int)
    | JString(s: string)
    | JArray(elems: seq<Json>)
    | JObject(fields: map<string, Json>)

  /** A property read from an object: `None` is `undefined`. */
  function Field(fields: map<string, Json>, key: string): (v: Option<Json>)
    ensures v.Some? <==> key in fields
    ensures v.Some? ==> v.value == fields[key]
  {
    if key in fields then Some(fields[key]) else None
  }

  /** The type name the schema library reports for a received value. */
  function TypeName(v: Option<Json>): (name: string)
    ensures name == "undefined" <==> v.None?
  {
    match v
    case None => "undefined"
    case Some(JNull) => "null"
    case Some(JBool(_)) => "boolean"
    case Some(JNumber(_)) => "number"
    case Some(JString(_)) => "string"
    case Some(JArray(_)) => "array"
    case Some(JObject(_)) => "object"
  }

  /** The three issue kinds the two schemas can raise. */
  datatype Issue =
    | InvalidType(expected: string, received: string)
    | InvalidEnumValue(received: string)
    | TooShort

  /** The accepted strategy values, as the enum's issues list them. */
  const StrategyChoices: string := "'AUTO' | 'RSS' | 'HTML'"

  function Message(issue: Issue): string {
    match issue
    case InvalidType(expected, received) =>
      if received == "undefined" then "Required" else "Expected " + expected + ", received " + received
    case InvalidEnumValue(received) =>
      "Invalid enum value. Expected " + StrategyChoices + ", received '" + received + "'"
    case TooShort => "String must contain at least 1 character(s)"
  }

  const ErrorPrefix: string := "Validation error: "

  /** The text of the error a rejection raises. */
  function ErrorText(issues: seq<Issue>): (text: string)
    ensures |ErrorPrefix| <= |text| && text[..|ErrorPrefix|] == ErrorPrefix
    ensures |issues| == 1 ==> text == ErrorPrefix + Message(issues[0])
  {
    var messages := seq(|issues|, k requires 0 <= k < |issues| => Message(issues[k]));
    assert |issues| == 1 ==> messages == [Message(issues[0])];
    ErrorPrefix + Join(messages, ", ")
  }

  function IssuesOf<T>(r: Result<T, Issue>): (issues: seq<Issue>)
    ensures r.Success? <==> issues == []
    ensures r.Failure? ==> issues == [r.error]
  {
    if r.Failure? then [r.error] else []
  }

  /** The enum member a string names, if any. */
  function StrategyNamed(s: string): (kind: Option<Ingest.SourceType>)
    ensures kind.Some? <==> s in {"AUTO", "RSS", "HTML"}
  {
    if s == "AUTO" then Some(Ingest.AUTO)
    else if s == "RSS" then Some(Ingest.RSS)
    else if s == "HTML" then Some(Ingest.HTML)
    else None
  }

  function StrategyName(kind: Ingest.SourceType): (s: string)
    ensures StrategyNamed(s) == Some(kind)
  {
    match kind
    case AUTO => "AUTO"
    case RSS => "RSS"
    case HTML => "HTML"
  }

  /** `strategy: z.enum(['AUTO', 'RSS', 'HTML']).optional()` */
  function ParseStrategy(v: Option<Json>): Result<Option<Ingest.SourceType>, Issue> {
    match v
    case None => Success(None)
    case Some(JString(s)) =>
      if StrategyNamed(s).Some? then Success(StrategyNamed(s)) else Failure(InvalidEnumValue(s))
    case Some(_) => Failure(InvalidType(StrategyChoices, TypeName(v)))
  }

  /** `z.string().min(1)`, the required form. */
  function ParseNonEmpty(v: Option<Json>): Result<string, Issue> {
    match v
    case Some(JString(s)) => if |s| >= 1 then Success(s) else Failure(TooShort)
    case _ => Failure(InvalidType("string", TypeName(v)))
  }

  /** `categorySlug: z.string().min(1).optional()` */
  function ParseCategorySlug(v: Option<Json>): Result<Option<string>, Issue> {
    if v.None? then Success(None)
    else match ParseNonEmpty(v)
      case Success(s) => Success(Some(s))
      case Failure(issue) => Failure(issue)
  }

  /** What the schemas accept, stated independently of the parsers. */
  predicate StrategyAcceptable(v: Option<Json>) {
    v.None? || v.value in {JString("AUTO"), JString("RSS"), JString("HTML")}
  }

  predicate SlugAcceptable(v: Option<Json>) {
    v.None? || (v.value.JString? && v.value.s != "")
  }

  /** The issues the `strategy` key raises: none exactly when it is acceptable, otherwise one. */
  function StrategyIssues(v: Option<Json>): (issues: seq<Issue>)
    ensures issues == [] <==> StrategyAcceptable(v)
    ensures |issues| <= 1
    ensures v.Some? && v.value.JString? && !StrategyAcceptable(v) ==> issues == [InvalidEnumValue(v.value.s)]
    ensures v.Some? && !v.value.JString? ==> issues == [InvalidType(StrategyChoices, TypeName(v))]
  {
    IssuesOf(ParseStrategy(v))
  }

  /** The issues the `categorySlug` key raises: none exactly when it is acceptable, otherwise one. */
  function SlugIssues(v: Option<Json>): (issues: seq<Issue>)
    ensures issues == [] <==> SlugAcceptable(v)
    ensures |issues| <= 1
    ensures v == Some(JString("")) ==> issues == [TooShort]
    ensures v.Some? && !v.value.JString? ==> issues == [InvalidType("string", TypeName(v))]
  {
    IssuesOf(ParseCategorySlug(v))
  }

  datatype IngestAllRequest = IngestAllRequest(strategy: Option<Ingest.SourceType>, categorySlug: Option<string>)

  /** `validateIngestRequest`: the parsed request, or the text of the error it raises. */
  function ValidateIngestRequest(body: Json): (r: Result<IngestAllRequest, string>)
    ensures r.Success? <==>
      body.JObject? && StrategyAcceptable(Field(body.fields, "strategy"))
      && SlugAcceptable(Field(body.fields, "categorySlug"))
    ensures r.Success? ==>
      && (r.value.strategy.None? <==> "strategy" !in body.fields)
      && (r.value.strategy.Some? ==> body.fields["strategy"] == JString(StrategyName(r.value.strategy.value)))
      && (r.value.categorySlug.None? <==> "categorySlug" !in body.fields)
      && (r.value.categorySlug.Some? ==> body.fields["categorySlug"] == JString(r.value.categorySlug.value))
    ensures r.Failure? ==> |ErrorPrefix| <= |r.error| && r.error[..|ErrorPrefix|] == ErrorPrefix
    ensures !body.JObject? ==> r == Failure(ErrorText([InvalidType("object", TypeName(Some(body)))]))
    ensures body.JObject? && r.Failure? ==>
      r.error == ErrorText(StrategyIssues(Field(body.fields, "strategy")) + SlugIssues(Field(body.fields, "categorySlug")))
  {
    if !body.JObject? then
      Failure(ErrorText([InvalidType("object", TypeName(Some(body)))]))
    else
      var strategy := ParseStrategy(Field(body.fields, "strategy"));
      var slug := ParseCategorySlug(Field(body.fields, "categorySlug"));
      var issues := StrategyIssues(Field(body.fields, "strategy")) + SlugIssues(Field(body.fields, "categorySlug"));
      if issues == [] then Success(IngestAllRequest(strategy.value, slug.value))
      else Failure(ErrorText(issues))
  }

  /**
   * `validateStatusQuery`: `jobId` is what `URLSearchParams.get` returns, `None`
   * standing for its `null`.
   */
  function ValidateStatusQuery(jobId: Option<string>): (r: Result<string, string>)
    ensures r.Success? <==> jobId.Some? && jobId.value != ""
    ensures r.Success? ==> r.value == jobId.value
    ensures jobId.None? ==> r == Failure(ErrorText([InvalidType("string", "null")]))
    ensures jobId == Some("") ==> r == Failure(ErrorText([TooShort]))
  {
    var received := if jobId.Some? then JString(jobId.value) else JNull;
    match ParseNonEmpty(Some(received))
    case Success(id) => Success(id)
    case Failure(issue) => Failure(ErrorText([issue]))
  }

  /** A missing `jobId` is reported as a null where a string was expected. */
  lemma MissingJobIdMessage()
    ensures ValidateStatusQuery(None) == Failure(ErrorPrefix + ("Expected " + "string" + ", received " + "null"))
  {
    assert ValidateStatusQuery(None) == Failure(ErrorText([InvalidType("string", "null")]));
  }

  /** An empty `jobId` is reported as too short. */
  lemma EmptyJobIdMessage()
    ensures ValidateStatusQuery(Some("")) == Failure(ErrorPrefix + "String must contain at least 1 character(s)")
  {
  }

  /** A body that is not an object is rejected with a single type issue. */
  lemma NonObjectRejected(body: Json)
    requires !body.JObject?
    ensures ValidateIngestRequest(body) == Failure(ErrorPrefix + ("Expected " + "object" + ", received " + TypeName(Some(body))))
  {
    assert ValidateIngestRequest(body) == Failure(ErrorText([InvalidType("object", TypeName(Some(body)))]));
  }

  /** Both fields are checked: when both are wrong, both messages appear, strategy first. */
  lemma BothIssuesReported(fields: map<string, Json>)
    requires !StrategyAcceptable(Field(fields, "strategy"))
    requires !SlugAcceptable(Field(fields, "categorySlug"))
    ensures ValidateIngestRequest(JObject(fields)).Failure?
    ensures ValidateIngestRequest(JObject(fields)).error
            == ErrorPrefix + Message(StrategyIssues(Field(fields, "strategy"))[0]) + ", "
               + Message(SlugIssues(Field(fields, "categorySlug"))[0])
  {
    var si := StrategyIssues(Field(fields, "strategy"));
    var ci := SlugIssues(Field(fields, "categorySlug"));
    assert si + ci == [si[0], ci[0]];
    TwoIssuesText(si[0], ci[0]);
  }

  lemma TwoIssuesText(first: Issue, second: Issue)
    ensures ErrorText([first, second]) == ErrorPrefix + Message(first) + ", " + Message(second)
  {
    var issues := [first, second];
    var messages := seq(|issues|, k requires 0 <= k < |issues| => Message(issues[k]));
    assert messages == [Message(first), Message(second)];
    JoinTwo(Message(first), Message(second), ", ");
  }

  lemma JoinTwo(a: string, b: string, sep: string)
    ensures Join([a, b], sep) == a + sep + b
  {
    assert [a, b][1..] == [b];
  }

  /** An unknown strategy is reported with the value received. */
  lemma UnknownStrategyMessage()
    ensures ValidateIngestRequest(JObject(map["strategy" := JString("FAST")]))
      == Failure(ErrorPrefix + ("Invalid enum value. Expected " + StrategyChoices + ", received '" + "FAST" + "'"))
  {
    var fields := map["strategy" := JString("FAST")];
    assert StrategyNamed("FAST").None?;
    assert ParseStrategy(Field(fields, "strategy")) == Failure(InvalidEnumValue("FAST"));
    assert ParseCategorySlug(Field(fields, "categorySlug")) == Success(None);
    assert ValidateIngestRequest(JObject(fields)) == Failure(ErrorText([InvalidEnumValue("FAST")]));
  }

  /** An empty object is the request with both fields absent; unknown keys are dropped. */
  lemma UnknownKeysDropped(fields: map<string, Json>)
    requires "strategy" !in fields && "categorySlug" !in fields
    ensures ValidateIngestRequest(JObject(fields)) == Success(IngestAllRequest(None, None))
  {
  }
}

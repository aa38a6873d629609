/** The create-product-category controller: a schema that trims both fields
    and bounds their lengths, one call to the category service with the
    trimmed values, and the service's `error` field turned into a throw. */
module ProductCategoryCreate {
  import opened Wrappers
  import opened JsValues

  /** The characters `String.prototype.trim` removes: ECMAScript WhiteSpace
      and LineTerminator. */
  predicate IsWhitespace(c: char)
  {
    || c in {'\t', '\n', '\U{000B}', '\U{000C}', '\r', ' ', '\U{00A0}', '\U{1680}',
             '\U{2028}', '\U{2029}', '\U{202F}', '\U{205F}', '\U{3000}', '\U{FEFF}'}
    || '\U{2000}' <= c <= '\U{200A}'
  }

  /** `s` without its leading whitespace. */
  function TrimStart(s: string): (r: string)
    ensures |r| <= |s| && r == s[|s| - |r|..]
    ensures forall i :: 0 <= i < |s| - |r| ==> IsWhitespace(s[i])
    ensures r != [] ==> !IsWhitespace(r[0])
    decreases |s|
  {
    if s != [] && IsWhitespace(s[0]) then TrimStart(s[1..]) else s
  }

  /** `s` without its trailing whitespace. */
  function TrimEnd(s: string): (r: string)
    ensures |r| <= |s| && r == s[..|r|]
    ensures forall i :: |r| <= i < |s| ==> IsWhitespace(s[i])
    ensures r != [] ==> !IsWhitespace(r[|r| - 1])
    decreases |s|
  {
    if s != [] && IsWhitespace(s[|s| - 1]) then TrimEnd(s[..|s| - 1]) else s
  }

  /** `s.trim()`: no longer than `s`, and with no whitespace at either end. */
  function Trim(s: string): (r: string)
    ensures |r| <= |s|
    ensures r != [] ==> !IsWhitespace(r[0]) && !IsWhitespace(r[|r| - 1])
  {
    TrimEnd(TrimStart(s))
  }

  /** Trim removes whitespace only: what it keeps is a slice of `s` with
      non-whitespace ends, and everything outside that slice is whitespace. */
  lemma TrimShape(s: string)
    ensures
      var r := Trim(s);
      var lead := |s| - |TrimStart(s)|;
      && lead + |r| <= |s| && r == s[lead..lead + |r|]
      && (forall i :: 0 <= i < lead ==> IsWhitespace(s[i]))
      && (forall i :: lead + |r| <= i < |s| ==> IsWhitespace(s[i]))
      && (r != [] ==> !IsWhitespace(r[0]) && !IsWhitespace(r[|r| - 1]))
  {
    var u := TrimStart(s);
    var r := TrimEnd(u);
    var lead := |s| - |u|;
    assert u == s[lead..];
    assert r == u[..|r|];
    assert r == s[lead..lead + |r|];
    forall i | lead + |r| <= i < |s| ensures IsWhitespace(s[i]) {
      assert s[i] == u[i - lead];
    }
  }

  /** A string whose ends are not whitespace is its own trim. */
  lemma {:induction false} TrimKeeps(s: string)
    requires s != [] ==> !IsWhitespace(s[0]) && !IsWhitespace(s[|s| - 1])
    ensures Trim(s) == s
  {
  }

  /** Trimming twice is trimming once. */
  lemma TrimIdempotent(s: string)
    ensures Trim(Trim(s)) == Trim(s)
  {
    TrimShape(s);
    TrimKeeps(Trim(s));
  }

  /** A string of whitespace only trims to the empty string. */
  lemma {:induction false} TrimBlank(s: string)
    requires forall i :: 0 <= i < |s| ==> IsWhitespace(s[i])
    ensures Trim(s) == ""
  {
    TrimShape(s);
  }

  datatype CategoryRequest = CategoryRequest(name: string, description: string)

  const NAME_MIN: nat := 1
  const NAME_MAX: nat := 100
  const DESCRIPTION_MIN: nat := 5
  const DESCRIPTION_MAX: nat := 500

  /** The issue, if any, of one trimmed string field against its length bounds. */
  function LengthIssues(field: string, value: string, min: nat, max: nat, tooShort: string, tooLong: string): (r: seq<Issue>)
    ensures |r| <= 1
    ensures r == [] <==> min <= |value| <= max
    ensures r != [] ==> r[0].path == [field]
  {
    if |value| < min then [Issue([field], tooShort)]
    else if |value| > max then [Issue([field], tooLong)]
    else []
  }

  predicate NameFits(name: string)
  {
    NAME_MIN <= |name| <= NAME_MAX
  }

  predicate DescriptionFits(description: string)
  {
    DESCRIPTION_MIN <= |description| <= DESCRIPTION_MAX
  }

  predicate InBounds(req: CategoryRequest)
  {
    NameFits(req.name) && DescriptionFits(req.description)
  }

  /** The length checks of the schema, on fields already trimmed. */
  function CheckLengths(req: CategoryRequest): (r: Result<CategoryRequest, Exception>)
    ensures r.Success? <==> InBounds(req)
    ensures r.Success? ==> r.value == req
    ensures r.Failure? ==>
      && r.error.name == "ZodError"
      && 1 <= |r.error.errors| <= 2
      && (forall k :: 0 <= k < |r.error.errors| ==>
            || (r.error.errors[k].path == ["name"] && !NameFits(req.name))
            || (r.error.errors[k].path == ["description"] && !DescriptionFits(req.description)))
    // each field out of bounds has its issue, the name's first
    ensures r.Failure? ==>
      && (!NameFits(req.name) <==>
            exists k :: 0 <= k < |r.error.errors| && r.error.errors[k].path == ["name"])
      && (!DescriptionFits(req.description) <==>
            exists k :: 0 <= k < |r.error.errors| && r.error.errors[k].path == ["description"])
      && (!NameFits(req.name) ==> r.error.errors[0].path == ["name"])
      && |r.error.errors| == (if NameFits(req.name) then 0 else 1) + (if DescriptionFits(req.description) then 0 else 1)
  {
    var nameIssues := LengthIssues("name", req.name, NAME_MIN, NAME_MAX,
      "String must contain at least 1 character(s)", "String must contain at most 100 character(s)");
    var descriptionIssues := LengthIssues("description", req.description, DESCRIPTION_MIN, DESCRIPTION_MAX,
      "String must contain at least 5 character(s)", "String must contain at most 500 character(s)");
    var issues := nameIssues + descriptionIssues;
    assert forall k :: 0 <= k < |issues| ==> issues[k] == if k < |nameIssues| then nameIssues[0] else descriptionIssues[0];
    assert nameIssues != [] ==> issues[0] == nameIssues[0];
    assert descriptionIssues != [] ==> issues[|nameIssues|] == descriptionIssues[0];
    if issues == [] then Success(req) else Failure(ZodError(issues))
  }

  /** `CreateProductCategorySchema.parse(request)`: the trimmed request, or a
      validation error with exactly one issue for each field whose trimmed
      value is out of bounds, the name's first. */
  function Parse(req: CategoryRequest): (r: Result<CategoryRequest, Exception>)
    ensures r.Success? <==>
      && NameFits(Trim(req.name))
      && DescriptionFits(Trim(req.description))
    ensures r.Success? ==> r.value == CategoryRequest(Trim(req.name), Trim(req.description))
    ensures r.Failure? ==>
      && r.error.name == "ZodError"
      && 1 <= |r.error.errors| <= 2
      && (forall k :: 0 <= k < |r.error.errors| ==>
            || (r.error.errors[k].path == ["name"] && !NameFits(Trim(req.name)))
            || (r.error.errors[k].path == ["description"]
                && !DescriptionFits(Trim(req.description))))
    ensures r.Failure? ==>
      && (!NameFits(Trim(req.name)) <==>
            exists k :: 0 <= k < |r.error.errors| && r.error.errors[k].path == ["name"])
      && (!DescriptionFits(Trim(req.description)) <==>
            exists k :: 0 <= k < |r.error.errors| && r.error.errors[k].path == ["description"])
      && (!NameFits(Trim(req.name)) ==> r.error.errors[0].path == ["name"])
      && |r.error.errors| == (if NameFits(Trim(req.name)) then 0 else 1)
                             + (if DescriptionFits(Trim(req.description)) then 0 else 1)
  {
    var trimmed := CategoryRequest(Trim(req.name), Trim(req.description));
    var r := CheckLengths(trimmed);
    r
  }

  /** A name of blanks is refused even when it is long enough untrimmed. */
  lemma BlankNameRefused(req: CategoryRequest)
    requires forall i :: 0 <= i < |req.name| ==> IsWhitespace(req.name[i])
    ensures Parse(req).Failure?
  {
    TrimBlank(req.name);
  }

  /** Validation accepts its own output unchanged. */
  lemma ParseIdempotent(req: CategoryRequest)
    requires Parse(req).Success?
    ensures Parse(Parse(req).value) == Parse(req)
  {
    TrimIdempotent(req.name);
    TrimIdempotent(req.description);
  }

  datatype ProductCategory = ProductCategory(id: int, name: string, description: string)

  /** What `createProductCategory` resolves to: a category, or an object with
      an `error` field. */
  datatype CategoryReply = CategoryReply(category: Option<ProductCategory>, error: Option<string>)

  /** The service call either resolves to a reply or throws. */
  datatype ServiceAnswer = Returned(reply: CategoryReply) | Threw(exception: Exception)

  /** The arguments the controller passes to `createProductCategory`. */
  datatype CategoryCall = CategoryCall(name: string, description: string)

  /** What `handle` did: the service calls it made, and what it returned or threw. */
  datatype Handled = Handled(calls: seq<CategoryCall>, outcome: Result<CategoryReply, Exception>)

  /** `CreateProductCategoryController.handle(request)`, with the category
      service given as the function `service`. */
  function Handle(req: CategoryRequest, service: CategoryCall -> ServiceAnswer): (r: Handled)
    ensures |r.calls| <= 1
    ensures Parse(req).Failure? ==> r.calls == [] && r.outcome == Failure(Parse(req).error)
    ensures Parse(req).Success? ==> r.calls == [CategoryCall(Trim(req.name), Trim(req.description))]
    ensures Parse(req).Success? ==>
      match service(r.calls[0])
      case Threw(e) => r.outcome == Failure(e)
      case Returned(reply) =>
        if TruthyText(reply.error) then r.outcome == Failure(PlainError(reply.error.value))
        else r.outcome == Success(reply)
  {
    var parsed := Parse(req);
    assert parsed.Success? ==> parsed.value == CategoryRequest(Trim(req.name), Trim(req.description));
    Relay(parsed, service)
  }

  /** What `handle` does with the outcome of validation. */
  function Relay(parsed: Result<CategoryRequest, Exception>, service: CategoryCall -> ServiceAnswer): (r: Handled)
    ensures |r.calls| <= 1
    ensures parsed.Failure? ==> r.calls == [] && r.outcome == Failure(parsed.error)
    ensures parsed.Success? ==> r.calls == [CategoryCall(parsed.value.name, parsed.value.description)]
    ensures parsed.Success? ==>
      match service(r.calls[0])
      case Threw(e) => r.outcome == Failure(e)
      case Returned(reply) =>
        if TruthyText(reply.error) then r.outcome == Failure(PlainError(reply.error.value))
        else r.outcome == Success(reply)
  {
    match parsed
    case Failure(e) => Handled([], Failure(e))
    case Success(valid) =>
      var call := CategoryCall(valid.name, valid.description);
      match service(call)
      case Threw(e) => Handled([call], Failure(e))
      case Returned(reply) =>
        if TruthyText(reply.error) then Handled([call], Failure(PlainError(reply.error.value)))
        else Handled([call], Success(reply))
  }

  /** Two requests that differ only in surrounding whitespace are handled
      identically. */
  lemma {:induction false} HandleIgnoresPadding(a: CategoryRequest, b: CategoryRequest, service: CategoryCall -> ServiceAnswer)
    requires Trim(a.name) == Trim(b.name) && Trim(a.description) == Trim(b.description)
    ensures Handle(a, service) == Handle(b, service)
  {
    assert Parse(a) == Parse(b) by {
      assert CategoryRequest(Trim(a.name), Trim(a.description)) == CategoryRequest(Trim(b.name), Trim(b.description));
    }
  }
}

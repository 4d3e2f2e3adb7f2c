/** How the backend turns exceptions into HTTP error replies
    (backend-spring/.../exception/GlobalExceptionHandler.java): validation failures list
    the message of each field, bad credentials and unexpected exceptions get fixed replies,
    and other runtime exceptions are classified by keywords in their message. */
module ErrorHandling {
  import opened Wrappers
  import opened Text

  /** `details` of a reply: absent, or the message (possibly null) of each field. */
  datatype Details = NoDetails | FieldMessages(fields: map<string, Option<string>>)

  /** An `ErrorResponse` with the HTTP status it is sent with; the timestamp is left out. */
  datatype ErrorReply = ErrorReply(status: int, code: string, message: string, details: Details)

  /** A code and a status chosen for a runtime exception. */
  datatype Verdict = Verdict(code: string, status: int)

  /** One entry of a binding result: a field error, or an error about the whole object. */
  datatype BindingError = FieldError(field: string, defaultMessage: Option<string>) | ObjectError(defaultMessage: Option<string>)

  /** The exception kinds the handler distinguishes; `message` is absent when Java's is null. */
  datatype Failure =
    | ValidationFailure(errors: seq<BindingError>)
    | BadCredentials(message: Option<string>)
    | Runtime(message: Option<string>)
    | Other(message: Option<string>)

  /** `handleRuntimeException`'s if/else chain over the message. */
  function Classify(m: string): (v: Verdict)
    ensures v.status == 404 <==> Contains(m, "not found")
    ensures v.status == 500 <==> v == Verdict("INTERNAL_ERROR", 500)
  {
    if Contains(m, "not found") then Verdict("NOT_FOUND", 404)
    else if Contains(m, "already exists") then Verdict("CONFLICT", 409)
    else if Contains(m, "unauthorized") || Contains(m, "forbidden") then Verdict("FORBIDDEN", 403)
    else if Contains(m, "Invalid") || Contains(m, "invalid") then Verdict("BAD_REQUEST", 400)
    else Verdict("INTERNAL_ERROR", 500)
  }

  /** A keyword rule: any of `keywords` in the message selects `verdict`. */
  datatype Rule = Rule(keywords: seq<string>, verdict: Verdict)

  /** The handler's rules, in the order it tries them. */
  const Rules: seq<Rule> := [
    Rule(["not found"], Verdict("NOT_FOUND", 404)),
    Rule(["already exists"], Verdict("CONFLICT", 409)),
    Rule(["unauthorized", "forbidden"], Verdict("FORBIDDEN", 403)),
    Rule(["Invalid", "invalid"], Verdict("BAD_REQUEST", 400))
  ]

  predicate Fires(r: Rule, m: string)
    ensures Fires(r, m) <==> exists w :: w in r.keywords && Contains(m, w)
  {
    exists k :: 0 <= k < |r.keywords| && Contains(m, r.keywords[k])
  }

  /** The verdict of the first rule that fires, else the default. */
  function FirstMatch(rules: seq<Rule>, m: string): (v: Verdict)
    ensures (forall i :: 0 <= i < |rules| ==> !Fires(rules[i], m)) ==> v == Verdict("INTERNAL_ERROR", 500)
    ensures forall i :: 0 <= i < |rules| && Fires(rules[i], m) && (forall j :: 0 <= j < i ==> !Fires(rules[j], m)) ==>
              v == rules[i].verdict
  {
    if rules == [] then Verdict("INTERNAL_ERROR", 500)
    else if Fires(rules[0], m) then rules[0].verdict
    else FirstMatch(rules[1..], m)
  }

  /** The if/else chain is the first-match reading of the rule table: earlier keywords
      take precedence over later ones. */
  lemma ClassifyIsFirstMatch(m: string)
    ensures Classify(m) == FirstMatch(Rules, m)
  {
    assert Fires(Rules[0], m) <==> Contains(m, "not found") by {
      assert Rules[0].keywords[0] == "not found";
    }
    assert Fires(Rules[1], m) <==> Contains(m, "already exists") by {
      assert Rules[1].keywords[0] == "already exists";
    }
    assert Fires(Rules[2], m) <==> Contains(m, "unauthorized") || Contains(m, "forbidden") by {
      assert Rules[2].keywords[0] == "unauthorized" && Rules[2].keywords[1] == "forbidden";
    }
    assert Fires(Rules[3], m) <==> Contains(m, "Invalid") || Contains(m, "invalid") by {
      assert Rules[3].keywords[0] == "Invalid" && Rules[3].keywords[1] == "invalid";
    }
    assert Rules[1..][1..][1..][1..] == [];
  }

  /** `handleRuntimeException`: the classified code and status, the message unchanged and
      no details; a null message makes the handler itself fail. */
  function HandleRuntime(message: Option<string>): (r: Option<ErrorReply>)
    ensures r.None? <==> message.None?
    ensures r.Some? ==> r.value.message == message.value && r.value.details == NoDetails
                        && Verdict(r.value.code, r.value.status) == FirstMatch(Rules, message.value)
  {
    if message.None? then None
    else
      ClassifyIsFirstMatch(message.value);
      var v := Classify(message.value);
      Some(ErrorReply(v.status, v.code, message.value, NoDetails))
  }

  /** Each field mapped to the message of its last error. */
  function FieldMap(errors: seq<BindingError>): (r: map<string, Option<string>>)
    ensures forall f :: f in r ==> exists i :: 0 <= i < |errors| && errors[i].FieldError? && errors[i].field == f
  {
    if errors == [] then map[]
    else
      var last := errors[|errors| - 1];
      if last.FieldError? then FieldMap(errors[..|errors| - 1])[last.field := last.defaultMessage]
      else FieldMap(errors[..|errors| - 1])
  }

  predicate AllFieldErrors(errors: seq<BindingError>)
    ensures AllFieldErrors(errors) <==> forall e :: e in errors ==> e.FieldError?
  {
    forall i :: 0 <= i < |errors| ==> errors[i].FieldError?
  }

  /** The map has one entry per field with an error, holding that field's last message. */
  lemma {:induction false} LastErrorWins(errors: seq<BindingError>)
    ensures forall f :: f in FieldMap(errors) <==> exists i :: 0 <= i < |errors| && errors[i].FieldError? && errors[i].field == f
    ensures forall i ::
              (0 <= i < |errors| && errors[i].FieldError?
               && forall j :: i < j < |errors| ==> !(errors[j].FieldError? && errors[j].field == errors[i].field))
              ==> FieldMap(errors)[errors[i].field] == errors[i].defaultMessage
  {
    if errors != [] {
      var p := errors[..|errors| - 1];
      LastErrorWins(p);
      forall i | 0 <= i < |errors| - 1
        ensures errors[i] == p[i]
      {
      }
    }
  }

  /** `handleValidationExceptions`: collects the field messages in order, a later message
      for a field replacing an earlier one; an error that is not a field error makes the
      cast fail and the handler with it. */
  method HandleValidation(errors: seq<BindingError>) returns (r: Option<ErrorReply>)
    ensures r.None? <==> !AllFieldErrors(errors)
    ensures r.Some? ==> r.value == ErrorReply(400, "VALIDATION_ERROR", "Validation failed", FieldMessages(FieldMap(errors)))
  {
    var fields: map<string, Option<string>> := map[];
    for i := 0 to |errors|
      invariant AllFieldErrors(errors[..i])
      invariant fields == FieldMap(errors[..i])
    {
      assert errors[..i + 1][..i] == errors[..i];
      match errors[i]
      case ObjectError(_) =>
        assert !AllFieldErrors(errors) by {
          assert !errors[i].FieldError?;
        }
        return None;
      case FieldError(field, message) =>
        fields := fields[field := message];
    }
    assert errors[..|errors|] == errors;
    return Some(ErrorReply(400, "VALIDATION_ERROR", "Validation failed", FieldMessages(fields)));
  }

  /** `handleBadCredentialsException`: a fixed reply, whatever the exception says. */
  function HandleBadCredentials(message: Option<string>): (r: ErrorReply)
    ensures r.status == 401 && r.code == "AUTHENTICATION_ERROR" && r.message == "Invalid credentials"
    ensures r.details == NoDetails
  {
    ErrorReply(401, "AUTHENTICATION_ERROR", "Invalid credentials", NoDetails)
  }

  /** `handleGenericException`: a fixed reply that does not reveal the exception's message. */
  function HandleGeneric(message: Option<string>): (r: ErrorReply)
    ensures r.status == 500 && r.code == "INTERNAL_SERVER_ERROR" && r.message == "An unexpected error occurred"
    ensures r.details == NoDetails
  {
    ErrorReply(500, "INTERNAL_SERVER_ERROR", "An unexpected error occurred", NoDetails)
  }

  /** Every "<subject> not found" message the services throw ("Note not found", "User not
      found", "Owner not found", "Share not found", "Public link not found") is a 404. */
  lemma NotFoundMessages(subject: string)
    ensures Classify(subject + "not found") == Verdict("NOT_FOUND", 404)
  {
    ContainsPiece(subject, "not found", "");
    assert subject + "not found" + "" == subject + "not found";
  }

  /** The self-share refusal contains no keyword and falls through to 500. `NoKeyword`
      states the general case. */
  lemma SelfShareIsInternalError()
    ensures Classify("Cannot share note with yourself") == Verdict("INTERNAL_ERROR", 500)
  {
    NoKeyword("Cannot share note with yourself");
  }

  /** No character of `m` is in `cs`. */
  predicate Avoids(m: string, cs: set<char>)
  {
    forall i :: 0 <= i < |m| ==> m[i] !in cs
  }

  lemma AvoidsChar(m: string, cs: set<char>, c: char)
    requires Avoids(m, cs) && c in cs
    ensures c !in m
  {
    forall i | 0 <= i < |m|
      ensures m[i] != c
    {
    }
  }

  /** A message lacking 'x', 'z', 'I' and 'v', and lacking either 'f' or both 'd' and
      'b', contains none of the keywords. */
  lemma NoKeyword(m: string)
    requires Avoids(m, {'x', 'z', 'I', 'v'})
    requires Avoids(m, {'d', 'b'}) || Avoids(m, {'f'})
    ensures Classify(m) == Verdict("INTERNAL_ERROR", 500)
  {
    AvoidsChar(m, {'x', 'z', 'I', 'v'}, 'x');
    AvoidsChar(m, {'x', 'z', 'I', 'v'}, 'z');
    AvoidsChar(m, {'x', 'z', 'I', 'v'}, 'I');
    AvoidsChar(m, {'x', 'z', 'I', 'v'}, 'v');
    NotContainsMissingChar(m, "already exists", 'x');
    NotContainsMissingChar(m, "unauthorized", 'z');
    NotContainsMissingChar(m, "Invalid", 'I');
    NotContainsMissingChar(m, "invalid", 'v');
    if Avoids(m, {'d', 'b'}) {
      AvoidsChar(m, {'d', 'b'}, 'd');
      AvoidsChar(m, {'d', 'b'}, 'b');
      NotContainsMissingChar(m, "not found", 'd');
      NotContainsMissingChar(m, "forbidden", 'b');
    } else {
      AvoidsChar(m, {'f'}, 'f');
      NotContainsMissingChar(m, "not found", 'f');
      NotContainsMissingChar(m, "forbidden", 'f');
    }
  }

  /** Which handler a failure reaches: Spring picks the most specific one, so bad
      credentials, although a runtime exception, never reach the keyword rules. */
  method Handle(f: Failure) returns (r: Option<ErrorReply>)
    ensures f.BadCredentials? ==> r == Some(HandleBadCredentials(f.message))
    ensures f.Runtime? ==> r == HandleRuntime(f.message)
    ensures f.Other? ==> r == Some(HandleGeneric(f.message))
    ensures f.ValidationFailure? ==>
              (r.None? <==> !AllFieldErrors(f.errors))
              && (r.Some? ==> r.value == ErrorReply(400, "VALIDATION_ERROR", "Validation failed", FieldMessages(FieldMap(f.errors))))
  {
    match f
    case ValidationFailure(errors) => r := HandleValidation(errors);
    case BadCredentials(m) => r := Some(HandleBadCredentials(m));
    case Runtime(m) => r := HandleRuntime(m);
    case Other(m) => r := Some(HandleGeneric(m));
  }
}

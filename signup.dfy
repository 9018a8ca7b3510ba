/** The sign-up controller: validates the request body and delegates to the add-account use case. */
module SignUp {
  import opened Outcomes
  import opened Accounts
  import opened Errors

  /** A request body: field names to their string values. A key that is absent or
      bound to `undefined` is simply not in the map. */
  type Body = map<string, string>

  /** The body is None when the request carries none, so destructuring it throws. */
  datatype HttpRequest = HttpRequest(body: Option<Body>)

  /** The three responses the controller builds, by the helper that builds each. */
  datatype HttpResponse =
    | BadRequest(error: ParamError)
    | Ok(body: AccountModel)
    | InternalServerError
  {
    /** 400 for a bad request; 200 and 500 are the codes conventional for `ok` and `internalServerError`. */
    function StatusCode(): (code: int)
      ensures code == 400 <==> BadRequest?
      ensures code == 200 <==> Ok?
      ensures code == 500 <==> InternalServerError?
    {
      match this
      case BadRequest(_) => 400
      case Ok(_) => 200
      case InternalServerError => 500
    }
  }

  /** Whether an email is valid, or a throw. */
  type EmailValidator = string -> Result<bool>

  /** A call the controller makes on one of its collaborators. */
  datatype Call = IsValid(email: string) | Add(account: AddAccountModel)

  const RequiredFields: seq<string> := ["name", "email", "password", "passwordConfirmation"]

  /** A field as the controller reads it: an absent field reads as "", which is as falsy as `undefined`. */
  function Field(body: Body, field: string): string {
    if field in body then body[field] else ""
  }

  /** JavaScript truthiness of a string field. */
  predicate Truthy(body: Body, field: string) {
    Field(body, field) != ""
  }

  /** The index of the first falsy field, or |fields| when every field is truthy. */
  function FirstFalsy(body: Body, fields: seq<string>): (k: nat)
    ensures k <= |fields|
    ensures forall i :: 0 <= i < k ==> Truthy(body, fields[i])
    ensures k < |fields| ==> !Truthy(body, fields[k])
  {
    if fields == [] then 0
    else if !Truthy(body, fields[0]) then 0
    else 1 + FirstFalsy(body, fields[1..])
  }

  /** There is a body and every required field in it is truthy. */
  predicate FieldsPresent(request: HttpRequest) {
    request.body.Some? &&
    forall i :: 0 <= i < |RequiredFields| ==> Truthy(request.body.value, RequiredFields[i])
  }

  /** What the controller forwards to the use case: name, email and password, and not the confirmation. */
  function SignUpData(body: Body): AddAccountModel {
    AddAccountModel(Field(body, "name"), Field(body, "email"), Field(body, "password"))
  }

  /** Every check passes: fields present, email valid, password confirmed. */
  predicate ChecksPass(request: HttpRequest, isValid: EmailValidator) {
    && FieldsPresent(request)
    && isValid(Field(request.body.value, "email")) == Resolved(true)
    && Field(request.body.value, "password") == Field(request.body.value, "passwordConfirmation")
  }

  /** The response to a request, and the collaborator calls made on the way. */
  function Respond(request: HttpRequest, isValid: EmailValidator, addAccount: AddAccount): (r: Traced<HttpResponse, Call>)
    // a request without a body throws at once: 500, and no collaborator is called
    ensures request.body.None? ==> r.result == InternalServerError && r.calls == []
    // a missing-parameter error names field k exactly when k is the first falsy required field
    ensures forall k :: 0 <= k < |RequiredFields| ==>
      (r.result == BadRequest(MissimParamError(RequiredFields[k])) <==>
        request.body.Some? && !Truthy(request.body.value, RequiredFields[k]) &&
        forall j :: 0 <= j < k ==> Truthy(request.body.value, RequiredFields[j]))
    // a collaborator is called only once every field is present, and the validator first, on the email
    ensures r.calls != [] <==> FieldsPresent(request)
    ensures r.calls != [] ==> r.calls[0] == IsValid(Field(request.body.value, "email"))
    // an email the validator rejects is reported as an invalid email parameter
    ensures r.result == BadRequest(InvalidParamError("email")) <==>
      FieldsPresent(request) && isValid(Field(request.body.value, "email")) == Resolved(false)
    // a valid email with an unconfirmed password is reported as a mismatch
    ensures r.result == BadRequest(PasswordDontMatchError) <==>
      FieldsPresent(request) && isValid(Field(request.body.value, "email")) == Resolved(true) &&
      Field(request.body.value, "password") != Field(request.body.value, "passwordConfirmation")
    // the use case is called, once and last, exactly when every check passes, with name, email and password
    ensures |r.calls| <= 2
    ensures |r.calls| == 2 <==> ChecksPass(request, isValid)
    ensures |r.calls| == 2 ==> r.calls[1] == Add(SignUpData(request.body.value))
    // success means the use case resolved, and its account is the body, unchanged
    ensures r.result.Ok? <==> |r.calls| == 2 && addAccount(r.calls[1].account).Resolved?
    ensures r.result.Ok? ==> Resolved(r.result.body) == addAccount(r.calls[1].account)
    // 500 exactly when something threw: the missing body, the validator or the use case
    ensures r.result.InternalServerError? <==>
      || request.body.None?
      || (FieldsPresent(request) && isValid(Field(request.body.value, "email")).Rejected?)
      || (ChecksPass(request, isValid) && addAccount(SignUpData(request.body.value)).Rejected?)
  {
    match request.body
    case None => Traced(InternalServerError, [])
    case Some(body) =>
      var k := FirstFalsy(body, RequiredFields);
      if k < |RequiredFields| then
        Traced(BadRequest(MissimParamError(RequiredFields[k])), [])
      else
        var email := Field(body, "email");
        match isValid(email)
        case Rejected(_) => Traced(InternalServerError, [IsValid(email)])
        case Resolved(valid) =>
          if !valid then
            Traced(BadRequest(InvalidParamError("email")), [IsValid(email)])
          else if Field(body, "password") != Field(body, "passwordConfirmation") then
            Traced(BadRequest(PasswordDontMatchError), [IsValid(email)])
          else
            var account := SignUpData(body);
            match addAccount(account)
            case Rejected(_) => Traced(InternalServerError, [IsValid(email), Add(account)])
            case Resolved(accountReturn) => Traced(Ok(accountReturn), [IsValid(email), Add(account)])
  }

  /** Only the required fields decide the first falsy one. */
  lemma {:induction false} FirstFalsyReadsOnlyFields(b1: Body, b2: Body, fields: seq<string>)
    requires forall i :: 0 <= i < |fields| ==> Field(b1, fields[i]) == Field(b2, fields[i])
    ensures FirstFalsy(b1, fields) == FirstFalsy(b2, fields)
  {
    if fields != [] && Truthy(b1, fields[0]) {
      FirstFalsyReadsOnlyFields(b1, b2, fields[1..]);
    }
  }

  /** The controller reads nothing of the body but the four required fields. */
  lemma RespondReadsOnlyRequiredFields(b1: Body, b2: Body, isValid: EmailValidator, addAccount: AddAccount)
    requires forall i :: 0 <= i < |RequiredFields| ==> Field(b1, RequiredFields[i]) == Field(b2, RequiredFields[i])
    ensures Respond(HttpRequest(Some(b1)), isValid, addAccount) == Respond(HttpRequest(Some(b2)), isValid, addAccount)
  {
    FirstFalsyReadsOnlyFields(b1, b2, RequiredFields);
    assert Field(b1, RequiredFields[0]) == Field(b2, RequiredFields[0]);
    assert Field(b1, RequiredFields[1]) == Field(b2, RequiredFields[1]);
    assert Field(b1, RequiredFields[2]) == Field(b2, RequiredFields[2]);
    assert Field(b1, RequiredFields[3]) == Field(b2, RequiredFields[3]);
  }

  /** A field present but empty is treated exactly like an absent one. */
  lemma EmptyFieldIsAbsent(body: Body, field: string, isValid: EmailValidator, addAccount: AddAccount)
    ensures Respond(HttpRequest(Some(body[field := ""])), isValid, addAccount) ==
            Respond(HttpRequest(Some(body - {field})), isValid, addAccount)
  {
    RespondReadsOnlyRequiredFields(body[field := ""], body - {field}, isValid, addAccount);
  }

  /** What a collaborator throws never reaches the response: collaborators that differ only in
      the detail of their failures give the same response and make the same calls. */
  lemma NoErrorDetailLeaks(request: HttpRequest, v1: EmailValidator, v2: EmailValidator, a1: AddAccount, a2: AddAccount)
    requires forall email :: SameUpToDetail(v1(email), v2(email))
    requires forall account :: SameUpToDetail(a1(account), a2(account))
    ensures Respond(request, v1, a1) == Respond(request, v2, a2)
  {
  }

  /** A body without a name is answered with status 400, naming "name". */
  lemma MissingNameIsBadRequest(isValid: EmailValidator, addAccount: AddAccount)
    ensures
      var body := map["email" := "email@mail.com", "password" := "password", "passwordConfirmation" := "password"];
      var r := Respond(HttpRequest(Some(body)), isValid, addAccount);
      && r.result.StatusCode() == 400 && r.result == BadRequest(MissimParamError("name"))
      && r.result.error.Name() == Some("MissimParamError")
  {
  }

  /** A complete, confirmed sign-up whose use case stores the account is answered with that account. */
  lemma SuccessfulSignUp(stored: AccountModel)
    ensures
      var body := map["name" := "any_name", "email" := "email@mail.com",
                      "password" := "password", "passwordConfirmation" := "password"];
      var r := Respond(HttpRequest(Some(body)), e => Resolved(true), a => Resolved(stored));
      && r.result.StatusCode() == 200 && r.result == Ok(stored)
      && r.calls == [IsValid("email@mail.com"), Add(AddAccountModel("any_name", "email@mail.com", "password"))]
  {
  }

  class SignUpController {
    const emailValidator: EmailValidator
    const addAccount: AddAccount

    constructor (emailValidator: EmailValidator, addAccount: AddAccount)
      ensures this.emailValidator == emailValidator && this.addAccount == addAccount
    {
      this.emailValidator := emailValidator;
      this.addAccount := addAccount;
    }

    /** Handle one sign-up request; `calls` logs the collaborator calls made, in order. */
    method Handle(request: HttpRequest) returns (response: HttpResponse, ghost calls: seq<Call>)
      ensures response == Respond(request, emailValidator, addAccount).result
      ensures calls == Respond(request, emailValidator, addAccount).calls
    {
      if request.body.None? {
        return InternalServerError, [];
      }
      var body := request.body.value;
      var i := 0;
      while i < |RequiredFields|
        invariant i <= |RequiredFields|
        invariant forall j :: 0 <= j < i ==> Truthy(body, RequiredFields[j])
      {
        var field := RequiredFields[i];
        if !Truthy(body, field) {
          return BadRequest(MissimParamError(field)), [];
        }
        i := i + 1;
      }
      var email := Field(body, "email");
      calls := [IsValid(email)];
      var isValid := emailValidator(email);
      if isValid.Rejected? {
        return InternalServerError, calls;
      }
      if !isValid.value {
        return BadRequest(InvalidParamError("email")), calls;
      }
      if Field(body, "password") != Field(body, "passwordConfirmation") {
        return BadRequest(PasswordDontMatchError), calls;
      }
      var account := SignUpData(body);
      calls := calls + [Add(account)];
      var accountReturn := addAccount(account);
      if accountReturn.Rejected? {
        return InternalServerError, calls;
      }
      return Ok(accountReturn.value), calls;
    }
  }
}

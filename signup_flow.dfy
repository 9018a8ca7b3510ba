/** The controller wired to the database-backed use case. */
module SignUpFlow {
  import opened Outcomes
  import opened Accounts
  import opened SignUp
  import DbAddAccount

  /** The use case as the controller's collaborator: only its result is visible to the controller. */
  function AsAddAccount(d: DbAddAccount.DBAddAccount): (add: AddAccount)
    // it resolves exactly when hashing and then storing the hashed record resolve, with the stored record
    ensures forall account :: add(account).Resolved? <==>
      d.encrypter(account.password).Resolved? &&
      d.addAccountRepository(account.(password := d.encrypter(account.password).value)).Resolved?
    ensures forall account :: add(account).Resolved? ==>
      add(account).value == d.addAccountRepository(account.(password := d.encrypter(account.password).value)).value
  {
    account => d.Add(account).result
  }

  /**
   * Once every check passes, the sign-up succeeds exactly when hashing and storing do,
   * and answers with the stored record; a hashing failure and a storage failure are
   * both the same 500 response.
   */
  lemma SignUpStoresHashedAccount(request: HttpRequest, isValid: EmailValidator, d: DbAddAccount.DBAddAccount)
    requires ChecksPass(request, isValid)
    ensures
      var data := SignUpData(request.body.value);
      var hashed := d.encrypter(data.password);
      var response := Respond(request, isValid, AsAddAccount(d)).result;
      && (response.Ok? <==> hashed.Resolved? && d.addAccountRepository(data.(password := hashed.value)).Resolved?)
      && (response.Ok? ==> response.body == d.addAccountRepository(data.(password := hashed.value)).value)
      && (!response.Ok? ==> response == InternalServerError)
  {
  }
}

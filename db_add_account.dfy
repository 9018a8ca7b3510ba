/** The add-account use case backed by an encrypter and a repository. */
module DbAddAccount {
  import opened Outcomes
  import opened Accounts

  /** A call the use case makes on one of its collaborators. */
  datatype Call = Encrypt(plaintext: string) | RepositoryAdd(record: AddAccountModel)

  /** The use case holds its two collaborators, fixed when it is built. */
  datatype DBAddAccount = DBAddAccount(encrypter: Encrypter, addAccountRepository: AddAccountRepository)
  {
    /**
     * Hash the password, forward a copy of the input whose password is the hash,
     * and return what the repository returns; a failure of either collaborator
     * propagates.
     */
    function Add(account: AddAccountModel): (out: Traced<Result<AccountModel>, Call>)
      // the encrypter is called first, whatever the input, with exactly the plaintext password
      ensures 1 <= |out.calls| <= 2 && out.calls[0] == Encrypt(account.password)
      // the repository is called, once and second, exactly when hashing succeeded
      ensures |out.calls| == 2 <==> encrypter(account.password).Resolved?
      ensures |out.calls| == 2 ==> out.calls[1].RepositoryAdd?
      // what it receives is the input with the password replaced by the hash, and nothing else changed
      ensures |out.calls| == 2 ==>
        var record := out.calls[1].record;
        record.name == account.name && record.email == account.email &&
        Resolved(record.password) == encrypter(account.password)
      // the repository's outcome comes back verbatim, success or failure
      ensures |out.calls| == 2 ==> out.result == addAccountRepository(out.calls[1].record)
      // an encrypter failure comes back as the use case's failure
      ensures |out.calls| == 1 ==> out.result == Rejected(encrypter(account.password).error)
    {
      match encrypter(account.password)
      case Rejected(e) => Traced(Rejected(e), [Encrypt(account.password)])
      case Resolved(hashedPassword) =>
        var record := account.(password := hashedPassword);
        Traced(addAccountRepository(record), [Encrypt(account.password), RepositoryAdd(record)])
    }
  }

  /** The use case fails exactly when the encrypter fails or the repository rejects the hashed record. */
  lemma AddFailsIffCollaboratorFails(d: DBAddAccount, account: AddAccountModel)
    ensures d.Add(account).result.Rejected? <==>
      d.encrypter(account.password).Rejected? ||
      d.addAccountRepository(account.(password := d.encrypter(account.password).value)).Rejected?
  {
  }

  /**
   * The plaintext reaches nothing but the encrypter: two inputs that differ only in
   * passwords the encrypter hashes alike make the same repository call and the same result.
   */
  lemma PlaintextOnlyReachesEncrypter(d: DBAddAccount, a1: AddAccountModel, a2: AddAccountModel)
    requires a1.name == a2.name && a1.email == a2.email
    requires d.encrypter(a1.password) == d.encrypter(a2.password)
    ensures d.Add(a1).result == d.Add(a2).result
    ensures d.Add(a1).calls[1..] == d.Add(a2).calls[1..]
  {
  }

  /** The stubbed scenarios of the use case's unit tests. */
  lemma StubScenarios(detail: string)
    ensures
      var account := AddAccountModel("valid_name", "valid_email@email.com", "valid_password");
      var stored := AccountModel("1", "valid_name", "valid_email@email.com", "hashed_password");
      var encrypter: Encrypter := p => Resolved("hashed_password");
      var repository: AddAccountRepository := r => Resolved(stored);
      var out := DBAddAccount(encrypter, repository).Add(account);
      && out.calls[0] == Encrypt("valid_password")
      && out.calls[1] == RepositoryAdd(AddAccountModel("valid_name", "valid_email@email.com", "hashed_password"))
      && out.result == Resolved(stored)
      && DBAddAccount(p => Rejected(Thrown(detail)), repository).Add(account).result.Rejected?
      && DBAddAccount(encrypter, r => Rejected(Thrown(detail))).Add(account).result.Rejected?
  {
  }
}

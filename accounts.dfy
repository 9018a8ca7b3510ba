/** The account records and the collaborator interfaces of the data layer. */
module Accounts {
  import opened Outcomes

  /** The record handed to the use case and, with its password hashed, to the repository. */
  datatype AddAccountModel = AddAccountModel(name: string, email: string, password: string)

  /** The stored record the repository returns, with the identifier the store assigned. */
  datatype AccountModel = AccountModel(id: string, name: string, email: string, password: string)

  /** Hashes a plaintext password; the hashing itself is outside this model. */
  type Encrypter = string -> Result<string>

  /** Inserts a record and returns it as stored. */
  type AddAccountRepository = AddAccountModel -> Result<AccountModel>

  /** The add-account use case as the controller sees it. */
  type AddAccount = AddAccountModel -> Result<AccountModel>
}

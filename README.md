# Sign-up flow: controller and add-account use case

This project models the two pieces of logic in a small "clean architecture" account sign-up API.

- **The sign-up controller** (`SignUpController.handle`). It checks that the request body has truthy `name`, `email`, `password` and `passwordConfirmation`, in that order. It then asks an email-validator collaborator whether the email is valid and checks that the password equals its confirmation. Finally it calls the add-account use case with `{name, email, password}`. The outcome becomes a bad-request (400), ok (200) or internal-server-error (500) response. Anything thrown along the way becomes the 500 response.
- **The add-account use case** (`DBAddAccount.add`). It hashes the password with an encrypter and hands a copy of the input, with only the password replaced by the hash, to a repository. It returns the repository's result unchanged. A failure of either collaborator propagates.

How the model represents the source:

- Awaited calls are sequential, and each collaborator is a Dafny function that returns `Result`. `Resolved(v)` stands for a promise that resolves (or a call that returns). `Rejected(e)` stands for a rejection or a throw.
- A collaborator function stands for the answers that collaborator gives within one run. Each run calls each collaborator at most once. So a lemma comparing two runs assumes the collaborators answer alike in both. A salted production hasher, which gives a new hash every time, is covered run by run.
- Each specification function returns a `Traced` value: the result together with the collaborator calls made, in order. This log is what a test's spies observe. It lets the contracts state which collaborators are called, with what arguments and in what order.
- The controller is a class with its two collaborators as constant fields. `Handle` walks the required fields with a `while` loop, as the source's `for` loop does, and is proved equal to the specification function `Respond`.
- The use case takes its collaborators once, at construction, and never changes them. It is therefore an immutable `datatype`, and `Add` is a function.
- A request body is a map from field name to string. An absent key reads as `""`. A field is truthy when its value is not `""`, which is what `!httpRequest.body[field]` tests for a string or `undefined`.
- A request without a body is modelled too. The destructuring at `src/presentation/controllers/signup.ts:19` then throws inside the `try`, so the answer is the 500 response.

Modules: `Outcomes` (Option, Result, Traced), `Accounts` (records and collaborator types), `Errors` (the bad-request errors), `DbAddAccount` (the use case), `SignUp` (the controller) and `SignUpFlow` (the controller wired to the use case).

## Model

| member | source | states |
|---|---|---|
| `Errors.ParamError.Name` | src/presentation/errors/missim-param-error.ts:4 | The name is "MissimParamError" for a missing parameter and "PasswordDontMatchError" for a mismatch (password-dont-match.ts:4). There is none for the invalid-parameter error. |
| `Errors.ParamError.Message` | src/presentation/errors/missim-param-error.ts:3 | A missing-parameter message is "Missim Param: " followed by exactly the parameter name. The mismatch message is the fixed text of password-dont-match.ts:3. |
| `Errors.MessageIdentifiesError` | src/presentation/errors/missim-param-error.ts:2-3 | Two errors that have a message, and have the same one, are the same error, so a missing-parameter message names one field only. |
| `DbAddAccount.DBAddAccount.Add` | src/data/usecases/db-add-account.ts:14-23 | The encrypter is called first, once, with exactly the plaintext password, and no validation comes before it. The repository is called, once and second, exactly when hashing succeeded. It receives a record with the input's name and email and the hash as password. Its outcome is returned verbatim. An encrypter failure is returned as the use case's failure, and the repository is not called. |
| `DbAddAccount.AddFailsIffCollaboratorFails` | src/data/usecases/db-add-account.ts:16-17 | `add` fails if and only if the encrypter fails or the repository rejects the hashed record. |
| `DbAddAccount.PlaintextOnlyReachesEncrypter` | src/data/usecases/db-add-account.ts:15-19 | Take two inputs that differ only in passwords the encrypter hashes alike. They make the same repository call and give the same result, so the plaintext reaches nothing but the encrypter. |
| `DbAddAccount.StubScenarios` | src/data/usecases/db-add-account.spec.ts:46-113 | With the stubs of the unit tests: the encrypter gets "valid_password", and the repository gets the record with "hashed_password". The stored account is returned. A rejecting encrypter or repository makes `add` reject. |
| `SignUp.HttpResponse.StatusCode` | src/presentation/controllers/signup.spec.ts:14 | 400 exactly for bad requests. 200 and 500, the codes conventional for `ok` and `internalServerError`, exactly for the other two responses. |
| `SignUp.FirstFalsy` | src/presentation/controllers/signup.ts:26-30 | Returns the index of the first falsy field: every earlier field is truthy, and the field at that index, if any, is falsy. |
| `SignUp.Respond` | src/presentation/controllers/signup.ts:17-47 | No body gives 500 and no calls. A missing-parameter error names a field exactly when it is the first falsy required field. The validator is called exactly when all fields are present, first, and on the email. An invalid-email error comes exactly when the validator says false, and a mismatch error exactly when a valid email has an unconfirmed password. The use case is called exactly when every check passes, once, last, with exactly name, email and password. The response is ok exactly when the use case resolves, with its account unchanged. The answer is 500 exactly when the body, the validator or the use case throws. |
| `SignUp.SignUpController.constructor` | src/presentation/controllers/signup.ts:12-15 | Stores the email validator and the use case unchanged. |
| `SignUp.SignUpController.Handle` | src/presentation/controllers/signup.ts:17-47 | The response, and the calls the loop-and-branch implementation makes, are exactly those of `Respond`. |
| `SignUp.FirstFalsyReadsOnlyFields` | src/presentation/controllers/signup.ts:27 | Two bodies that agree on the listed fields have the same first falsy field. |
| `SignUp.RespondReadsOnlyRequiredFields` | src/presentation/controllers/signup.ts:19-42 | Two bodies that agree on the four required fields get the same response and the same calls, so any other field is ignored. |
| `SignUp.EmptyFieldIsAbsent` | src/presentation/controllers/signup.ts:27 | A body with a field set to "" and the same body without that field get the same response and the same calls. |
| `SignUp.NoErrorDetailLeaks` | src/presentation/controllers/signup.ts:44-46 | Collaborators that differ only in what they throw give the same response and the same calls, so no error detail reaches the response. |
| `SignUp.MissingNameIsBadRequest` | src/presentation/controllers/signup.spec.ts:3-15 | A body with no name gets status 400 and a missing-parameter error naming "name", whose error name is "MissimParamError", whatever the collaborators do. |
| `SignUp.SuccessfulSignUp` | src/presentation/controllers/signup.ts:38-43 | A complete, confirmed request with a valid email and an account-storing use case gets 200 with that account. The validator is called with the email and the use case with `{name, email, password}`. |
| `SignUpFlow.AsAddAccount` | src/data/usecases/db-add-account.ts:6 | The use case, used as the controller's collaborator, resolves exactly when the encrypter resolves and the repository resolves on the input with the hash as password. It then yields the repository's record. |
| `SignUpFlow.SignUpStoresHashedAccount` | src/presentation/controllers/signup.ts:38-46 | Once the checks pass, with the use case wired in: sign-up succeeds exactly when hashing and storing succeed, and answers with the repository's record. A hashing failure and a storage failure both give the same 500 response. |

## Left out

- Errors.ParamError.Name: gives no name for `InvalidParamError`, because its class (`src/presentation/errors/invalid-param-error.ts`) is not part of this model. The model keeps only the parameter name it carries, "email".
- Errors.ParamError.Message: gives no message for `InvalidParamError`, for the same reason.
- The bodies that the helpers `badRequest`, `ok` and `internalServerError` put in a response. `src/presentation/helpers/http-helper.ts` is not part of this model. A bad request carries the error, an ok response the account, and the server error nothing.
- The request type. `src/presentation/protocols/http.ts` is not part of this model, so the body is taken to be possibly absent, and a request without one ends in the catch.
- Body fields of types other than string (numbers, booleans, `null`): their JavaScript falsiness is not modelled. Fields are absent or strings.
- Promise and `async` machinery. Each awaited call is a sequential call that resolves or rejects. The `await new Promise(resolve => resolve(x))` wrappers are identities.
- Extra properties on the use case's input. `Object.assign({}, account, {password})` would copy them, but the records have exactly the three fields the interfaces declare (`src/data/protocols/add-account-repository.ts:5-19`), and the controller forwards exactly those.
- Calls made inside the use case do not appear in the controller's call log. Their effect on the response is stated by `SignUpFlow.SignUpStoresHashedAccount`.
- The MongoDB connection helper (`src/infra/db/mongodb/helpers/mongo-helper.ts`): I/O through a foreign library.
- The bcrypt encrypter adapter and the `validator.isEmail` email-validator adapter: foreign calls. They are modelled only as the `Encrypter` and `EmailValidator` function parameters.
- The test-runner configuration (`jest.config.ts`).
- `src/presentation/controllers/signup.spec.ts` builds the controller without collaborators and does not await `handle`. Only its status-400 expectation for a missing name is modelled.

/** Values the client's view models share: the `Resource` a use case emits and the signed-in
    `User` the backend returns. */
module ClientModels {
  import opened Wrappers

  /** What a use-case flow emits: in progress, done with its data, or failed with a
      message. */
  datatype Resource<T> = Loading | Success(data: T) | Error(message: string)

  /** The client's `User` model. */
  datatype User = User(
    id: int,
    username: string,
    email: string,
    firstName: string,
    lastName: string,
    phoneNumber: Option<string>,
    isVerified: bool,
    isHealthcareProvider: bool,
    providerVerified: bool,
    medicalSpecialty: Option<string>,
    hospitalAffiliation: Option<string>,
    lastLogin: Option<string>,
    roles: seq<string>,
    permissions: seq<string>)
}

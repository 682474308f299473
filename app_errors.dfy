/** The failures the backend raises: its own exception classes, the Spring Security and
    validation exceptions its handler distinguishes, and every other exception. */
module AppErrors {
  import opened Wrappers

  /** One rejected field of a request body, with its optional default message. */
  datatype FieldError = FieldError(field: string, defaultMessage: Option<string>)

  datatype AppError =
    | UserAlreadyExists(message: string)
    | ResourceNotFound(message: string)
    | InvalidToken(tokenType: string, message: string)
    | InvalidCredentials(message: string)
    | BusinessValidation(message: string, errorCode: string)
    | ValidationFailed(fieldErrors: seq<FieldError>)
    | BadCredentials(message: string)
    | Disabled(message: string)
    | UsernameNotFound(message: string)
      /** Any other Spring Security `AuthenticationException`. */
    | OtherAuthentication(message: string)
      /** Any other unchecked exception, with its possibly null message. */
    | Runtime(detail: Option<string>)
      /** A checked exception. */
    | Checked(detail: Option<string>)

  /** `new UserAlreadyExistsException(field, value)`. */
  function AlreadyRegistered(field: string, value: string): AppError
  {
    UserAlreadyExists(field + " '" + value + "' is already registered")
  }

  /** `new ResourceNotFoundException(resourceType, fieldName, identifier)`. */
  function NotFoundWith(resourceType: string, fieldName: string, identifier: string): AppError
  {
    ResourceNotFound(resourceType + " not found with " + fieldName + ": " + identifier)
  }
}

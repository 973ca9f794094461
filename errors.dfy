/**
 * The error conditions raised by the storage layer (lib/supabase/services/queries.ts).
 * Every exported query catches what went wrong and re-raises it as a ChatSDKError whose kind is
 * `bad_request:database` and whose message names the logical operation.
 */
module Errors {

  /** The `kind:subject` codes of ChatSDKError that the storage layer uses. */
  datatype ErrorCode = BadRequestDatabase | NotFoundDatabase

  /** A ChatSDKError: its code and its human-readable message. */
  datatype ChatSdkError = ChatSdkError(code: ErrorCode, message: string)

  /** An error reported by the database itself, before any query re-wraps it. */
  datatype DriverError =
    | UniqueViolation      // an INSERT whose key is already present
    | ForeignKeyViolation  // an INSERT that references a row that does not exist
    | NotSingleRow         // `.single()` saw zero or several rows (PostgREST code PGRST116)

  /** What an internal helper can throw: a ChatSDKError raised on purpose, or a raw driver error. */
  datatype Fault = Sdk(error: ChatSdkError) | Driver(reason: DriverError)

  /** The uniform failure every exported query raises from its outer catch. */
  function DatabaseError(message: string): ChatSdkError
  {
    ChatSdkError(BadRequestDatabase, message)
  }

  /**
   * The catch clause of the helpers and of the character/tag queries: a ChatSDKError is re-thrown
   * as it is, anything else becomes `bad_request:database` with the operation's message.
   */
  function RethrowSdkOrWrap(f: Fault, message: string): ChatSdkError
  {
    match f
    case Sdk(e) => e
    case Driver(_) => DatabaseError(message)
  }
}

/** How the error handler turns an exception into the alert the user sees. Logging
    and the platform's alert dialog are not part of this model: an alert is the
    title and text that would be displayed. */
module ErrorHandler {
  import opened Runtime
  import opened Text

  datatype AlertKind = ErrorAlert | WarningAlert | InfoAlert

  datatype Alert = Alert(kind: AlertKind, title: string, message: string)

  const PermissionMessage: string := "You don't have permission to perform this action."
  const TimedOutMessage: string := "The operation timed out. Please try again."
  const InvalidInputMessage: string := "Invalid input provided. Please check your data and try again."
  const CannotPerformMessage: string := "This operation cannot be performed at this time."
  const UnexpectedMessage: string :=
    "An unexpected error occurred. Please try again or contact support if the problem persists."

  const GenericDatabaseMessage: string :=
    "A database error occurred. Please check your connection and try again."
  const ConnectDatabaseMessage: string :=
    "Unable to connect to the database. Please check your network connection."

  /** The first matching arm of the type switch; each group of exception classes
      has a message of its own, so the message identifies the group. */
  function FriendlyMessage(c: ExceptionClass): (r: string)
    ensures r == PermissionMessage <==> c == UnauthorizedAccess
    ensures r == TimedOutMessage <==> c == Timeout
    ensures r == InvalidInputMessage <==> IsArgumentException(c)
    ensures r == CannotPerformMessage <==> IsInvalidOperationException(c)
    ensures r == UnexpectedMessage <==> c.Other?
  {
    match c
    case UnauthorizedAccess => PermissionMessage
    case Timeout => TimedOutMessage
    case Argument | ArgumentNull | ArgumentOutOfRange => InvalidInputMessage
    case InvalidOperation | ObjectDisposed => CannotPerformMessage
    case Other(_) => UnexpectedMessage
  }

  /** HandleExceptionAsync: an error titled "Error" with the friendly message. */
  function HandleException(e: Exception): (a: Alert)
    ensures a.kind == ErrorAlert && a.title == "Error"
    ensures a.message == FriendlyMessage(e.kind)
  {
    Alert(ErrorAlert, "Error", FriendlyMessage(e.kind))
  }

  /** The connection text when the exception's message mentions "connection" in
      any ASCII case, the generic text otherwise. */
  function DatabaseErrorMessage(e: Exception): (r: string)
    ensures r == ConnectDatabaseMessage <==> ContainsIgnoreCase(e.message, "connection")
    ensures r == GenericDatabaseMessage <==> !ContainsIgnoreCase(e.message, "connection")
  {
    var message := GenericDatabaseMessage;
    if ContainsIgnoreCase(e.message, "connection") then ConnectDatabaseMessage else message
  }

  /** HandleDatabaseErrorAsync: an error titled "Database Error". */
  function HandleDatabaseError(e: Exception): (a: Alert)
    ensures a.kind == ErrorAlert && a.title == "Database Error"
    ensures a.message == DatabaseErrorMessage(e)
  {
    Alert(ErrorAlert, "Database Error", DatabaseErrorMessage(e))
  }

  /** A message starting with "Connection" in capitals is still recognised. */
  lemma CapitalisedConnectionRecognised(e: Exception)
    requires e.message == "Connection refused"
    ensures HandleDatabaseError(e).message == ConnectDatabaseMessage
  {
    var low := Lower(e.message);
    assert low[0] == 'c';
    assert low[..10] == "connection";
    assert StartsWith(low, Lower("connection"));
  }
}

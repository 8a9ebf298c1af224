/**
 * The gateway's error-message helpers. Each one that shows toasts in the
 * application returns here the list of error messages it would show, in
 * order.
 */
module ErrorUtils {
  import opened Common
  import opened JsText

  /** The fallback text of the helpers. */
  const Unexpected: string := "Error inesperado"

  /** The fixed messages of `getHttpErrorMessage`. */
  const HttpErrorMessages: map<int, string> := map[
    400 := "Solicitud incorrecta",
    401 := "No autorizado",
    403 := "Acceso denegado",
    404 := "Recurso no encontrado",
    409 := "Conflicto de datos",
    422 := "Datos de entrada inválidos",
    500 := "Error interno del servidor",
    502 := "Error de conexión con el servidor",
    503 := "Servicio no disponible",
    0 := "No se puede conectar con el servidor"
  ]

  /**
   * `getHttpErrorMessage`: the fixed text of a known status, and the
   * fallback text for every other status.
   */
  function GetHttpErrorMessage(status: int): (m: string)
    ensures status in HttpErrorMessages ==> m == HttpErrorMessages[status]
    ensures status !in HttpErrorMessages ==> m == Unexpected
  {
    if status in HttpErrorMessages && HttpErrorMessages[status] != "" then HttpErrorMessages[status]
    else Unexpected
  }

  /**
   * The message is never empty, and it is the fallback exactly for the
   * statuses outside the table: a caller can tell known from unknown codes.
   */
  lemma HttpMessageKnownIffNotFallback(status: int)
    ensures GetHttpErrorMessage(status) != ""
    ensures GetHttpErrorMessage(status) == Unexpected <==> status !in HttpErrorMessages
  {
  }

  /** A validation error on one field of a request body. */
  datatype FieldError = FieldError(field: string, message: string)

  /**
   * The last segment of a field path, indices collapsed, with a space before
   * each capital and the first character upper-cased.
   */
  function FormattedSegment(field: string): string {
    UpperFirst(SpaceBeforeCapitals(LastSegment(CollapseIndices(field))))
  }

  /** The formatted segment holds no dot, and it is empty only for an empty segment. */
  lemma FormattedSegmentWithoutDots(field: string)
    ensures '.' !in FormattedSegment(field)
    ensures FormattedSegment(field) == "" <==> LastSegment(CollapseIndices(field)) == ""
  {
    var spaced := SpaceBeforeCapitals(LastSegment(CollapseIndices(field)));
    assert '.' !in spaced;
  }

  /**
   * The label `showFieldErrors` gives a field path: the formatted last
   * segment, or `Campo` when the path ends without one.
   */
  function FieldLabel(field: string): (r: string)
    ensures r != "" && '.' !in r
    ensures LastSegment(CollapseIndices(field)) == "" ==> r == "Campo"
    ensures LastSegment(CollapseIndices(field)) != "" ==> r == FormattedSegment(field)
  {
    FormattedSegmentWithoutDots(field);
    var name := FormattedSegment(field);
    FallbackLabelPlain();
    if name == "" then "Campo" else name
  }

  /**
   * The fallback label is non-empty and has no dot. A separate lemma: stated
   * inline in `FieldLabel`, the fact drowns among that function's definitions.
   */
  lemma FallbackLabelPlain()
    ensures "Campo" != "" && '.' !in "Campo"
  {
  }

  /** A field path without dots, digits or capitals keeps its text, capitalised. */
  lemma FieldLabelOfPlainName(field: string)
    requires field != "" && '.' !in field
    requires forall k :: 0 <= k < |field| ==> !IsDigit(field[k]) && !IsUpper(field[k])
    ensures FieldLabel(field) == UpperFirst(field)
  {
    CollapseWithoutDigits(field);
    assert LastSegment(field) == field;
  }

  /** The toast `showFieldErrors` shows for one field error. */
  function FieldErrorMessage(e: FieldError): string {
    FieldLabel(e.field) + ": " + e.message
  }

  /** `showFieldErrors`: one "label: message" per field error, in input order. */
  function FieldErrorMessages(errors: seq<FieldError>): (r: seq<string>)
    ensures |r| == |errors|
    ensures forall i :: 0 <= i < |errors| ==> r[i] == FieldErrorMessage(errors[i])
  {
    seq(|errors|, i requires 0 <= i < |errors| => FieldErrorMessage(errors[i]))
  }

  /** The argument of `showApiError`. */
  datatype ApiError = ApiError(
    status: Option<int>,
    message: Option<string>,
    detail: Option<string>,
    fieldErrors: Option<seq<FieldError>>)

  /**
   * `showApiError`: the field errors when there are any; otherwise one
   * message, `message`, else `detail`, else the fallback, prefixed by the
   * context when one is given.
   */
  function ShowApiError(error: ApiError, context: Option<string>): (r: seq<string>)
    ensures error.fieldErrors.Some? && error.fieldErrors.value != [] ==>
      r == FieldErrorMessages(error.fieldErrors.value)
    ensures !(error.fieldErrors.Some? && error.fieldErrors.value != []) ==>
      |r| == 1 &&
      var message := OrElse(error.message, OrElse(error.detail, Unexpected));
      r[0] == (if context.Some? && context.value != "" then context.value + ": " + message else message)
  {
    if error.fieldErrors.Some? && |error.fieldErrors.value| > 0 then
      FieldErrorMessages(error.fieldErrors.value)
    else
      var message := OrElse(error.message, OrElse(error.detail, Unexpected));
      [if context.Some? && context.value != "" then context.value + ": " + message else message]
  }

  /** Without field errors `showApiError` shows exactly one non-empty message. */
  lemma ApiErrorSingleMessage(error: ApiError, context: Option<string>)
    requires error.fieldErrors.None? || error.fieldErrors.value == []
    ensures |ShowApiError(error, context)| == 1 && ShowApiError(error, context)[0] != ""
  {
  }

  const ConnectionError: string := "Error de conexión. Verifica tu conexión a internet."
  const TimeoutError: string := "La petición tardó demasiado. Inténtalo de nuevo."
  const ServerConnectionError: string := "Error de conexión con el servidor."

  /** `handleNetworkError`: the message for an error code. */
  function HandleNetworkError(code: Option<string>): (m: string)
    ensures code == Some("NETWORK_ERROR") || code == Some("ERR_NETWORK") ==> m == ConnectionError
    ensures code == Some("ECONNABORTED") ==> m == TimeoutError
    ensures code != Some("NETWORK_ERROR") && code != Some("ERR_NETWORK") && code != Some("ECONNABORTED") ==>
      m == ServerConnectionError
  {
    if code == Some("NETWORK_ERROR") || code == Some("ERR_NETWORK") then ConnectionError
    else if code == Some("ECONNABORTED") then TimeoutError
    else ServerConnectionError
  }
}

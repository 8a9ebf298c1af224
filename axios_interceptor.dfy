/**
 * The gateway's axios response interceptor. A failed request is turned into
 * the list of error toasts it shows, whether the session is to be treated
 * as unauthenticated, and the rejection, which is always the original error.
 */
module AxiosInterceptor {
  import opened Common
  import opened JsText

  /** A field error as the server sends it; either part may be absent. */
  datatype RawFieldError = RawFieldError(field: Option<string>, message: Option<string>)

  /**
   * The body of an error response. `fieldErrors` is `Some` exactly when the
   * body carries an array under that key, possibly an empty one.
   */
  datatype ApiErrorData = ApiErrorData(
    message: Option<string>,
    detail: Option<string>,
    error: Option<string>,
    title: Option<string>,
    fieldErrors: Option<seq<RawFieldError>>)

  const BadRequestFallback: string := "Solicitud incorrecta. Verifica los datos ingresados."
  const GenericFallback: string := "Error inesperado. Inténtalo de nuevo."
  const FieldFallback: string := "Campo"
  const ValidationFallback: string := "Error de validación"
  const ConnectionMessage: string := "Error de conexión. Verifica tu conexión a internet."
  const ConfigurationMessage: string := "Error en la configuración de la petición."

  /** The statuses `getErrorMessage` answers with a fixed text whatever the body says. */
  const FixedMessages: map<int, string> := map[
    401 := "No tienes autorización para realizar esta acción.",
    403 := "Acceso denegado. No tienes permisos suficientes.",
    404 := "Recurso no encontrado.",
    409 := "Conflicto de datos. El recurso ya existe o hay un conflicto.",
    422 := "Datos de entrada inválidos. Verifica la información proporcionada.",
    500 := "Error interno del servidor. Inténtalo de nuevo más tarde.",
    502 := "Error de conexión con el servidor. Inténtalo de nuevo.",
    503 := "Servicio temporalmente no disponible. Inténtalo más tarde.",
    0 := "No se puede conectar con el servidor. Verifica tu conexión."
  ]

  /** `data?.message`, `data?.detail` and `data?.error` of a possibly missing body. */
  function MessageOf(data: Option<ApiErrorData>): Option<string> {
    if data.Some? then data.value.message else None
  }

  function DetailOf(data: Option<ApiErrorData>): Option<string> {
    if data.Some? then data.value.detail else None
  }

  function ErrorOf(data: Option<ApiErrorData>): Option<string> {
    if data.Some? then data.value.error else None
  }

  /**
   * `getErrorMessage`: for 400 the body's message, else its detail, else a
   * fixed hint; a fixed text for the statuses of `FixedMessages`; for every
   * other status the body's message, detail or error, else a generic text.
   */
  function GetErrorMessage(status: int, data: Option<ApiErrorData>): (m: string)
    ensures m != ""
    ensures status == 400 ==> m == OrElse(MessageOf(data), OrElse(DetailOf(data), BadRequestFallback))
    ensures status in FixedMessages ==> m == FixedMessages[status]
    ensures status != 400 && status !in FixedMessages ==>
      m == OrElse(MessageOf(data), OrElse(DetailOf(data), OrElse(ErrorOf(data), GenericFallback)))
  {
    if status == 400 then
      OrElse(MessageOf(data), OrElse(DetailOf(data), BadRequestFallback))
    else if status in FixedMessages && FixedMessages[status] != "" then
      FixedMessages[status]
    else
      OrElse(MessageOf(data), OrElse(DetailOf(data), OrElse(ErrorOf(data), GenericFallback)))
  }

  /** For the fixed statuses the body is ignored: any two bodies give the same text. */
  lemma FixedStatusIgnoresBody(status: int, a: Option<ApiErrorData>, b: Option<ApiErrorData>)
    requires status in FixedMessages
    ensures GetErrorMessage(status, a) == GetErrorMessage(status, b)
  {
  }

  /**
   * Outside the fixed statuses the text is taken from the body whenever the
   * body has a non-empty message, and it is that message.
   */
  lemma BodyMessageWins(status: int, data: ApiErrorData)
    requires status !in FixedMessages
    requires data.message.Some? && data.message.value != ""
    ensures GetErrorMessage(status, Some(data)) == data.message.value
  {
  }

  /** `fieldError.field?.replace(/\[\d*\]/g, '[]') || 'Campo'`. */
  function FieldName(f: RawFieldError): (r: string)
    ensures r != ""
    ensures f.field.None? || f.field.value == "" ==> r == FieldFallback
    ensures f.field.Some? && f.field.value != "" ==> r == CollapseIndices(f.field.value)
  {
    match f.field
    case None => FieldFallback
    case Some(s) => OrElse(Some(CollapseIndices(s)), FieldFallback)
  }

  /** A field name shown by the interceptor never contains a `[digits]` index. */
  lemma FieldNameHasNoIndex(f: RawFieldError)
    ensures forall i :: 0 <= i < |FieldName(f)| ==> !IndexAt(FieldName(f), i)
  {
    if f.field.Some? && f.field.value != "" {
      CollapseLeavesNoIndex(f.field.value);
    } else {
      assert FieldName(f) == "Campo";
      forall i | 0 <= i < 5 ensures !IndexAt(FieldName(f), i) {
        assert FieldName(f)[i] != '[';
      }
    }
  }

  /** The toast `handleFieldErrors` shows for one field error. */
  function FieldErrorToast(f: RawFieldError): string {
    FieldName(f) + ": " + OrElse(f.message, ValidationFallback)
  }

  /** `handleFieldErrors`: one "name: message" toast per field error, in order. */
  function HandleFieldErrors(errors: seq<RawFieldError>): (r: seq<string>)
    ensures |r| == |errors|
    ensures forall i :: 0 <= i < |errors| ==> r[i] == FieldErrorToast(errors[i])
  {
    if errors == [] then [] else [FieldErrorToast(errors[0])] + HandleFieldErrors(errors[1..])
  }

  /** A server response: its status and its body. */
  datatype Response = Response(status: int, data: Option<ApiErrorData>)

  /**
   * The parts of an `AxiosError` the interceptor reads: its own status, the
   * response if one arrived, the request URL, and whether a request was sent.
   */
  datatype AxiosErrorInfo = AxiosErrorInfo(
    status: Option<int>,
    response: Option<Response>,
    url: Option<string>,
    requestSent: bool)

  /** `err.status || (err.response ? err.response.status : 0)`. */
  function EffectiveStatus(err: AxiosErrorInfo): (s: int)
    ensures err.status.Some? && err.status.value != 0 ==> s == err.status.value
    ensures (err.status.None? || err.status.value == 0) && err.response.Some? ==> s == err.response.value.status
    ensures (err.status.None? || err.status.value == 0) && err.response.None? ==> s == 0
  {
    if err.status.Some? && err.status.value != 0 then err.status.value
    else if err.response.Some? then err.response.value.status
    else 0
  }

  /** The account check and the login call, whose failures are handled elsewhere. */
  predicate IsAuthenticationUrl(url: Option<string>) {
    url.Some? && (EndsWith(url.value, "api/account") || EndsWith(url.value, "api/authenticate"))
  }

  /** What the interceptor does with a failed request. */
  datatype Reaction = Reaction(unauthenticated: bool, toasts: seq<string>, rejection: AxiosErrorInfo)

  /**
   * `onResponseError`: a 401 signs the user out silently; authentication URLs
   * are silent; a response with a field-error array shows those errors, any
   * other response the status message; no response but a sent request shows
   * the connection message, and otherwise the configuration message. The
   * promise is always rejected with the original error.
   */
  function OnResponseError(err: AxiosErrorInfo): (r: Reaction)
    ensures r.rejection == err
    ensures r.unauthenticated <==> EffectiveStatus(err) == 401
    ensures EffectiveStatus(err) == 401 || IsAuthenticationUrl(err.url) ==> r.toasts == []
    ensures (EffectiveStatus(err) != 401 && !IsAuthenticationUrl(err.url) && err.response.Some? &&
             err.response.value.data.Some? && err.response.value.data.value.fieldErrors.Some?) ==>
      r.toasts == HandleFieldErrors(err.response.value.data.value.fieldErrors.value)
    ensures (EffectiveStatus(err) != 401 && !IsAuthenticationUrl(err.url) && err.response.Some? &&
             !(err.response.value.data.Some? && err.response.value.data.value.fieldErrors.Some?)) ==>
      r.toasts == [GetErrorMessage(EffectiveStatus(err), err.response.value.data)]
    ensures EffectiveStatus(err) != 401 && !IsAuthenticationUrl(err.url) && err.response.None? ==>
      r.toasts == [if err.requestSent then ConnectionMessage else ConfigurationMessage]
  {
    var status := EffectiveStatus(err);
    if status == 401 then Reaction(true, [], err)
    else if IsAuthenticationUrl(err.url) then Reaction(false, [], err)
    else if err.response.Some? then
      var data := err.response.value.data;
      if data.Some? && data.value.fieldErrors.Some? then
        Reaction(false, HandleFieldErrors(data.value.fieldErrors.value), err)
      else
        Reaction(false, [GetErrorMessage(status, data)], err)
    else if err.requestSent then Reaction(false, [ConnectionMessage], err)
    else Reaction(false, [ConfigurationMessage], err)
  }

  /**
   * Only a field-error array can make the interceptor show other than exactly
   * one toast, apart from the silent cases; every toast it shows is non-empty.
   */
  lemma OneToastUnlessFieldErrors(err: AxiosErrorInfo)
    ensures (EffectiveStatus(err) != 401 && !IsAuthenticationUrl(err.url) &&
             !(err.response.Some? && err.response.value.data.Some? &&
               err.response.value.data.value.fieldErrors.Some?)) ==>
      |OnResponseError(err).toasts| == 1
    ensures forall i :: 0 <= i < |OnResponseError(err).toasts| ==> OnResponseError(err).toasts[i] != ""
  {
    var r := OnResponseError(err);
    forall i | 0 <= i < |r.toasts| ensures r.toasts[i] != "" {
      if err.response.Some? && err.response.value.data.Some? &&
         err.response.value.data.value.fieldErrors.Some? &&
         EffectiveStatus(err) != 401 && !IsAuthenticationUrl(err.url) {
        var fe := err.response.value.data.value.fieldErrors.value;
        assert r.toasts[i] == FieldName(fe[i]) + ": " + OrElse(fe[i].message, ValidationFallback);
      }
    }
  }

  /** An empty field-error array silences the response: it is not replaced by the status message. */
  lemma EmptyFieldErrorsShowNothing(err: AxiosErrorInfo)
    requires EffectiveStatus(err) != 401 && !IsAuthenticationUrl(err.url)
    requires err.response.Some? && err.response.value.data.Some?
    requires err.response.value.data.value.fieldErrors == Some([])
    ensures OnResponseError(err).toasts == []
  {
  }
}

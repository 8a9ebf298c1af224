/**
 * The gateway's notification middleware. For every dispatched action it shows
 * a success toast for an alert header of a fulfilled action, error toasts for
 * a failed request or any other error, and then hands the action on to the
 * next middleware exactly once, returning what that one returns.
 */
module NotificationMiddleware {
  import opened Common
  import opened JsText
  import opened ErrorUtils

  /**
   * A field error of a problem body. The middleware rewrites its message in
   * place, so it is an object whose `message` may change.
   */
  class FieldErrorRecord {
    const field: string
    var message: string

    constructor (field: string, message: string)
      ensures this.field == field && this.message == message
    {
      this.field := field;
      this.message := message;
    }
  }

  /** The bean-validation constraint names that are reported as `Size`. */
  predicate IsSizeConstraint(message: string) {
    message == "Min" || message == "Max" || message == "DecimalMin" || message == "DecimalMax"
  }

  /** The message a field error carries after `getFieldErrorsToasts` has seen it. */
  function SizeRewrite(message: string): (r: string)
    ensures IsSizeConstraint(message) ==> r == "Size"
    ensures !IsSizeConstraint(message) ==> r == message
    ensures !IsSizeConstraint(r)
  {
    if IsSizeConstraint(message) then "Size" else message
  }

  /**
   * The toast for one field error: its path with indices collapsed to `[]`
   * and the first character upper-cased, quoted.
   */
  function FieldToast(field: string): string {
    "Error en el campo \"" + CapitalizeFirst(CollapseIndices(field)) + "\""
  }

  /** The toasts of a list of field errors, one per error in order; they depend on the paths only. */
  function FieldToasts(errors: seq<FieldErrorRecord>): (r: seq<string>)
    ensures |r| == |errors|
    ensures forall i :: 0 <= i < |errors| ==> r[i] == FieldToast(errors[i].field)
  {
    if errors == [] then [] else [FieldToast(errors[0].field)] + FieldToasts(errors[1..])
  }

  /**
   * A collapsed, capitalised path holds no `[digits]` index, so one
   * translation key serves every element of a list.
   */
  lemma {:induction false} FieldToastPathHasNoIndex(field: string)
    ensures var p := CapitalizeFirst(CollapseIndices(field));
      forall i :: 0 <= i < |p| ==> !IndexAt(p, i)
  {
    var c := CollapseIndices(field);
    var p := CapitalizeFirst(c);
    CollapseLeavesNoIndex(c);
    CollapseLeavesNoIndex(field);
    forall i | 0 <= i < |p| ensures !IndexAt(p, i) {
      if i == 0 {
        if IndexAt(p, 0) {
          assert p[0] == '[';
          assert c[0] == '[';
          assert p[1..] == c[1..];
          assert IndexAt(c, 0);
          assert false;
        }
      } else {
        assert p[i..] == c[i..];
        assert p[i + 1..] == c[i + 1..];
        assert IndexAt(p, i) == IndexAt(c, i);
      }
    }
  }

  /**
   * `getFieldErrorsToasts`: one toast per field error, in order, and the
   * messages Min, Max, DecimalMin and DecimalMax rewritten to `Size` on the
   * records themselves. A record listed twice is rewritten once in effect.
   */
  method GetFieldErrorsToasts(errors: seq<FieldErrorRecord>) returns (toasts: seq<string>)
    modifies errors
    ensures toasts == FieldToasts(errors)
    ensures forall f :: f in errors ==> f.message == SizeRewrite(old(f.message))
  {
    toasts := [];
    var i := 0;
    while i < |errors|
      invariant 0 <= i <= |errors|
      invariant toasts == FieldToasts(errors[..i])
      invariant forall f :: f in errors && f in errors[..i] ==> f.message == SizeRewrite(old(f.message))
      invariant forall f :: f in errors && f !in errors[..i] ==> f.message == old(f.message)
      modifies errors
    {
      var f := errors[i];
      if IsSizeConstraint(f.message) {
        f.message := "Size";
      }
      assert errors[..i + 1] == errors[..i] + [f];
      FieldToastsAppend(errors[..i], f);
      toasts := toasts + [FieldToast(f.field)];
      i := i + 1;
    }
    assert errors[..i] == errors;
  }

  lemma {:induction false} FieldToastsAppend(errors: seq<FieldErrorRecord>, f: FieldErrorRecord)
    ensures FieldToasts(errors + [f]) == FieldToasts(errors) + [FieldToast(f.field)]
  {
    if errors != [] {
      assert (errors + [f])[1..] == errors[1..] + [f];
      FieldToastsAppend(errors[1..], f);
    }
  }

  /** A response body: a JSON object, a text, or nothing. */
  datatype ResponseBody =
    | Json(
        isProblem: bool,
        fieldErrors: Option<seq<FieldErrorRecord>>,
        detail: Option<string>,
        message: Option<string>,
        error: Option<string>,
        title: Option<string>)
    | Text(text: string)
    | NoBody

  /**
   * An HTTP response; `headerError` is the error message the application
   * headers carry, as the header decoder reports it.
   */
  datatype HttpResponse = HttpResponse(status: int, body: ResponseBody, headerError: Option<string>)

  /** The error an action carries: an axios error, or any other error with its message. */
  datatype ActionError =
    | AxiosErr(
        response: Option<HttpResponse>,
        url: Option<string>,
        httpMethod: Option<string>,
        code: Option<string>,
        errMessage: Option<string>)
    | OtherErr(message: Option<string>)

  /** Whether an action reports a fulfilled or a rejected thunk, or neither. */
  datatype ActionKind = Fulfilled | Rejected | Plain

  /**
   * A dispatched action: its kind, the alert of its payload headers when the
   * payload has headers, and its error if it has one.
   */
  datatype Action = Action(kind: ActionKind, payloadHeaders: Option<Option<string>>, error: Option<ActionError>)

  datatype ToastKind = Success | Failure

  /** What the middleware does, in order. */
  datatype Effect =
    | Toast(kind: ToastKind, text: string)
    | LogAuthenticationCheck
    | CallNext

  const NotFoundMessage: string := "Recurso no encontrado"
  const UnexpectedBang: string := "Error inesperado!"

  predicate IsAuthUrl(url: Option<string>) {
    url.Some? && (EndsWith(url.value, "api/account") || EndsWith(url.value, "api/authenticate"))
  }

  /** The field errors of a problem body, when the body is a problem that has them. */
  function ProblemFieldErrors(body: ResponseBody): Option<seq<FieldErrorRecord>> {
    if body.Json? && body.isProblem then body.fieldErrors else None
  }

  /** `data?.detail ?? data?.message ?? data?.error ?? data?.title ?? getHttpErrorMessage(status)`. */
  function BodyMessage(body: ResponseBody, status: int): (m: string)
    ensures body.Json? && body.detail.Some? ==> m == body.detail.value
    ensures !body.Json? ==> m == GetHttpErrorMessage(status)
  {
    if body.Json? then
      CoalesceTo(Coalesce(body.detail, Coalesce(body.message, Coalesce(body.error, body.title))), GetHttpErrorMessage(status))
    else GetHttpErrorMessage(status)
  }

  /** The toasts for a response of a rejected request, after the silent and the special statuses. */
  function ResponseToasts(r: HttpResponse): seq<string> {
    match ProblemFieldErrors(r.body)
    case Some(fe) => FieldToasts(fe)
    case None =>
      if r.headerError.Some? && r.headerError.value != "" then [r.headerError.value]
      else if r.body.Text? && r.body.text != "" then [r.body.text]
      else ShowApiError(ApiError(Some(r.status), Some(BodyMessage(r.body, r.status)), None, None), None)
  }

  /** The toasts for a rejected axios error. */
  function AxiosEffects(response: Option<HttpResponse>, url: Option<string>, httpMethod: Option<string>,
                        code: Option<string>): seq<Effect>
  {
    match response
    case Some(r) =>
      if r.status == 401 || IsAuthUrl(url) then []
      else if r.status == 0 then [Toast(Failure, HandleNetworkError(code))]
      else if r.status == 404 then
        ShowApiErrorToasts(ShowApiError(ApiError(Some(404), Some(NotFoundMessage), None, None), None))
      else ShowApiErrorToasts(ResponseToasts(r))
    case None =>
      if url.Some? && EndsWith(url.value, "api/account") && httpMethod == Some("get") then [LogAuthenticationCheck]
      else [Toast(Failure, HandleNetworkError(code))]
  }

  /** Error toasts for a list of messages. */
  function ShowApiErrorToasts(messages: seq<string>): (r: seq<Effect>)
    ensures |r| == |messages|
    ensures forall i :: 0 <= i < |r| ==> r[i] == Toast(Failure, messages[i])
  {
    if messages == [] then [] else [Toast(Failure, messages[0])] + ShowApiErrorToasts(messages[1..])
  }

  /**
   * Everything the middleware shows or logs for an action, before it calls
   * the next middleware: the success alert first, then the error handling.
   */
  function Notifications(action: Action): seq<Effect> {
    SuccessEffects(action) + FailureEffects(action)
  }

  /** The success toast of a fulfilled action whose payload headers carry an alert. */
  function SuccessEffects(action: Action): seq<Effect> {
    if action.kind == Fulfilled && action.payloadHeaders.Some? &&
       action.payloadHeaders.value.Some? && action.payloadHeaders.value.value != ""
    then [Toast(Success, action.payloadHeaders.value.value)]
    else []
  }

  /** The handling of the action's error: the axios branch for a rejected action, else its message. */
  function FailureEffects(action: Action): seq<Effect> {
    match action.error
    case None => []
    case Some(e) =>
      if action.kind == Rejected && e.AxiosErr? then AxiosEffects(e.response, e.url, e.httpMethod, e.code)
      else if e.AxiosErr? then [Toast(Failure, CoalesceTo(e.errMessage, UnexpectedBang))]
      else [Toast(Failure, CoalesceTo(e.message, UnexpectedBang))]
  }

  /**
   * The middleware never calls `next` on its own account while notifying, so
   * `Handle` calls it exactly once, after every toast; it logs only for the
   * unanswered GET of the account check.
   */
  lemma NextIsNotANotification(action: Action)
    ensures CallNext !in Notifications(action)
    ensures LogAuthenticationCheck in Notifications(action) ==>
      action.kind == Rejected && action.error.Some? && action.error.value.AxiosErr? &&
      action.error.value.response.None? && action.error.value.httpMethod == Some("get")
  {
    var n := Notifications(action);
    forall i | 0 <= i < |n| ensures n[i] != CallNext && (n[i] == LogAuthenticationCheck ==>
      action.kind == Rejected && action.error.Some? && action.error.value.AxiosErr? &&
      action.error.value.response.None? && action.error.value.httpMethod == Some("get"))
    {
      if i >= |SuccessEffects(action)| {
        assert n[i] == FailureEffects(action)[i - |SuccessEffects(action)|];
      }
    }
  }

  /**
   * A 401 response and the authentication URLs are silent: a rejected axios
   * action with such a response adds no toast to the success alert.
   */
  lemma SilentForUnauthorizedAndAuthentication(action: Action)
    requires action.kind == Rejected && action.error.Some? && action.error.value.AxiosErr?
    requires action.error.value.response.Some?
    requires action.error.value.response.value.status == 401 || IsAuthUrl(action.error.value.url)
    ensures Notifications(action) == SuccessEffects(action)
    ensures RewrittenRecords(action) == []
  {
  }

  /**
   * The branch order for a response that is not silent, not 0 and not 404:
   * problem field errors, then the header error, then a non-empty text body,
   * and only then one toast from the body fields or the status text.
   */
  lemma ResponsePrecedence(r: HttpResponse)
    ensures ProblemFieldErrors(r.body).Some? ==> ResponseToasts(r) == FieldToasts(ProblemFieldErrors(r.body).value)
    ensures ProblemFieldErrors(r.body).None? && r.headerError.Some? && r.headerError.value != "" ==>
      ResponseToasts(r) == [r.headerError.value]
    ensures (ProblemFieldErrors(r.body).None? && (r.headerError.None? || r.headerError.value == "") &&
             r.body.Text? && r.body.text != "") ==>
      ResponseToasts(r) == [r.body.text]
    ensures (ProblemFieldErrors(r.body).None? && (r.headerError.None? || r.headerError.value == "") &&
             !(r.body.Text? && r.body.text != "")) ==>
      ResponseToasts(r) == [OrElse(Some(BodyMessage(r.body, r.status)), Unexpected)]
  {
  }

  /**
   * The body fields are tried as `detail`, `message`, `error`, `title`; a body
   * with none of them, or no JSON body at all, falls back to the status text.
   */
  lemma BodyMessageOrder(body: ResponseBody, status: int)
    ensures body.Json? && body.detail.None? && body.message.Some? ==> BodyMessage(body, status) == body.message.value
    ensures (body.Json? && body.detail.None? && body.message.None? && body.error.Some?) ==>
      BodyMessage(body, status) == body.error.value
    ensures (body.Json? && body.detail.None? && body.message.None? && body.error.None? && body.title.Some?) ==>
      BodyMessage(body, status) == body.title.value
    ensures (!body.Json? || (body.detail.None? && body.message.None? && body.error.None? && body.title.None?)) ==>
      BodyMessage(body, status) == GetHttpErrorMessage(status)
  {
  }

  /**
   * A rejected axios action whose response is not silent and carries no
   * problem field errors gets exactly one error toast.
   */
  lemma OneToastWithoutFieldErrors(action: Action)
    requires action.kind == Rejected && action.error.Some? && action.error.value.AxiosErr?
    requires action.error.value.response.Some?
    requires action.error.value.response.value.status != 401 && !IsAuthUrl(action.error.value.url)
    requires ProblemFieldErrors(action.error.value.response.value.body).None?
    ensures |FailureEffects(action)| == 1 && FailureEffects(action)[0].Toast?
    ensures FailureEffects(action)[0].kind == Failure
  {
    var r := action.error.value.response.value;
    if r.status != 0 && r.status != 404 {
      ResponsePrecedence(r);
    }
  }

  /** An error that is not a rejected axios error shows its message, or `Error inesperado!`. */
  lemma OtherErrorsShowTheirMessage(action: Action)
    requires action.error.Some? && action.error.value.OtherErr?
    ensures FailureEffects(action) == [Toast(Failure, CoalesceTo(action.error.value.message, UnexpectedBang))]
  {
  }

  /** A fulfilled action with an alert header shows it as a success, before anything else. */
  lemma FulfilledAlertFirst(action: Action, alert: string)
    requires action.kind == Fulfilled && action.payloadHeaders == Some(Some(alert)) && alert != ""
    ensures Notifications(action)[0] == Toast(Success, alert)
  {
  }

  /** The field-error records the middleware rewrites for an action, if it reaches them. */
  function RewrittenRecords(action: Action): seq<FieldErrorRecord> {
    if action.kind == Rejected && action.error.Some? && action.error.value.AxiosErr? &&
       action.error.value.response.Some? then
      var e := action.error.value;
      var r := e.response.value;
      if r.status == 401 || IsAuthUrl(e.url) || r.status == 0 || r.status == 404 then []
      else match ProblemFieldErrors(r.body) case Some(fe) => fe case None => []
    else []
  }

  /** Renames the size constraints of the field errors the middleware shows for `action`. */
  method RewriteShownFieldErrors(action: Action)
    modifies RewrittenRecords(action)
    ensures forall f :: f in RewrittenRecords(action) ==> f.message == SizeRewrite(old(f.message))
  {
    var records := RewrittenRecords(action);
    if records != [] {
      var _ := GetFieldErrorsToasts(records);
    }
  }

  /**
   * The middleware applied to `action` with `next` the rest of the chain: it
   * performs `Notifications(action)`, calls `next` once, last, and returns its
   * result; the field errors it shows get their size constraints renamed.
   */
  method Handle<R>(action: Action, next: Action -> R) returns (effects: seq<Effect>, result: R)
    modifies RewrittenRecords(action)
    ensures forall f :: f in RewrittenRecords(action) ==> f.message == SizeRewrite(old(f.message))
    ensures effects == Notifications(action) + [CallNext]
    ensures result == next(action)
  {
    effects := Notifications(action) + [CallNext];
    RewriteShownFieldErrors(action);
    result := next(action);
  }
}

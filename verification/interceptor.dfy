/**
 * `authInterceptor` and `hideSessionExpiredModal`: the bearer header rule,
 * the reaction to a 401 and the module-level reference to the one
 * session-expired modal.
 *
 * Component creation and DOM attachment are not modelled; a created modal is
 * a number drawn from a counter, and `attached` is the set of modal views
 * attached to the application.
 */
module AuthInterceptor {
  import opened Wrappers
  import AuthService

  datatype Request = Request(url: string, headers: map<string, string>)

  datatype HttpError = HttpError(status: int, message: string)

  /** What reaches the interceptor from the next handler. */
  datatype Reply = Ok(body: string) | Failed(error: HttpError)

  /**
   * The process-wide state the interceptor touches: the `jwt_token` storage
   * entry, the `modalComponentRef` variable, the attached modal views and the
   * number of modals created so far.
   */
  datatype State = State(token: AuthService.TokenStore, modalRef: Option<nat>, attached: set<nat>, created: nat)

  /** The reference names exactly the attached modal views, and only modals already created. */
  ghost predicate Valid(st: State) {
    && st.attached == (if st.modalRef.Some? then {st.modalRef.value} else {})
    && (st.modalRef.Some? ==> st.modalRef.value < st.created)
  }

  /** Start of the process: whatever token is stored, and no modal. */
  function Start(token: AuthService.TokenStore): (st: State)
    ensures Valid(st) && st.attached == {}
  {
    State(token, None, {}, 0)
  }

  const AuthorizationHeader := "Authorization"

  /** The outgoing request: with a (non-empty) stored token it carries `Authorization: Bearer <token>`. */
  function AttachBearer(token: AuthService.TokenStore, req: Request): (r: Request)
    ensures r.url == req.url
    ensures token.Some? && token.value != "" ==>
      AuthorizationHeader in r.headers && r.headers[AuthorizationHeader] == "Bearer " + token.value
    ensures token.None? || token == Some("") ==> r == req
    ensures forall h :: h != AuthorizationHeader ==> (h in r.headers <==> h in req.headers)
    ensures forall h :: h != AuthorizationHeader && h in r.headers ==> r.headers[h] == req.headers[h]
  {
    match token
    case Some(t) =>
      if t != "" then req.(headers := req.headers[AuthorizationHeader := "Bearer " + t]) else req
    case None => req
  }

  /** The `catchError` branch: a 401 removes the token and creates a modal only if none is held. */
  function OnError(st: State, error: HttpError): (r: State)
    ensures Valid(st) ==> Valid(r)
    ensures error.status != 401 ==> r == st
    ensures error.status == 401 ==> r.token.None?
    ensures error.status == 401 && st.modalRef.Some? ==> r == st.(token := None)
    ensures error.status == 401 && st.modalRef.None? ==>
      r.modalRef == Some(st.created) && r.attached == st.attached + {st.created} && r.created == st.created + 1
  {
    if error.status == 401 then
      var cleared := st.(token := None);
      if st.modalRef.None?
      then cleared.(modalRef := Some(st.created), attached := st.attached + {st.created}, created := st.created + 1)
      else cleared
    else st
  }

  /** One exchange: the request as sent, the state afterwards and what the caller receives. */
  datatype Exchange = Exchange(sent: Request, state: State, delivered: Reply)

  /** One call through the interceptor; every reply, error or not, reaches the caller unchanged. */
  function Intercept(st: State, req: Request, reply: Reply): (x: Exchange)
    ensures x.sent == AttachBearer(st.token, req)
    ensures x.delivered == reply
    ensures reply.Ok? ==> x.state == st
    ensures reply.Failed? ==> x.state == OnError(st, reply.error)
  {
    var sent := AttachBearer(st.token, req);
    match reply
    case Ok(_) => Exchange(sent, st, reply)
    case Failed(error) => Exchange(sent, OnError(st, error), reply)
  }

  /** `hideSessionExpiredModal`: detach and forget the held modal, if any. */
  function HideModal(st: State): (r: State)
    ensures Valid(st) ==> Valid(r) && r.attached == {}
    ensures r.modalRef.None? && r.token == st.token && r.created == st.created
    ensures st.modalRef.None? ==> r == st
  {
    match st.modalRef
    case Some(m) => st.(modalRef := None, attached := st.attached - {m})
    case None => st
  }

  /** Hiding twice is hiding once. */
  lemma HideIdempotent(st: State)
    ensures HideModal(HideModal(st)) == HideModal(st)
  {
  }

  /** Two 401s in a row leave exactly one modal, the one created for the first (or the one already shown). */
  lemma ConsecutiveUnauthorizedShowOneModal(st: State, e1: HttpError, e2: HttpError)
    requires Valid(st) && e1.status == 401 && e2.status == 401
    ensures var r := OnError(OnError(st, e1), e2);
      |r.attached| == 1 && r.modalRef == (if st.modalRef.Some? then st.modalRef else Some(st.created))
  {
  }

  /** After hiding, the next 401 shows a new modal, different from every earlier one. */
  lemma HideThenUnauthorizedShowsFreshModal(st: State, e: HttpError)
    requires Valid(st) && e.status == 401
    ensures var r := OnError(HideModal(st), e);
      r.modalRef.Some? && r.attached == {r.modalRef.value}
      && (st.modalRef.Some? ==> r.modalRef.value != st.modalRef.value)
  {
  }

  datatype Event = Call(req: Request, reply: Reply) | Hide

  function Step(st: State, e: Event): State {
    match e
    case Call(req, reply) => Intercept(st, req, reply).state
    case Hide => HideModal(st)
  }

  function Run(st: State, events: seq<Event>): State
    decreases |events|
  {
    if |events| == 0 then st else Run(Step(st, events[0]), events[1..])
  }

  /** Whatever mix of calls, failures and hides occurs, at most one modal is ever attached. */
  lemma {:induction false} AtMostOneModal(st: State, events: seq<Event>)
    requires Valid(st)
    ensures Valid(Run(st, events))
    ensures |Run(st, events).attached| <= 1
    decreases |events|
  {
    if |events| > 0 {
      var next := Step(st, events[0]);
      assert Valid(next);
      AtMostOneModal(next, events[1..]);
    }
  }
}

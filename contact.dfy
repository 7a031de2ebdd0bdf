/**
 * The contact form's `submit` handler: it refuses a form with a blank field,
 * posts the trimmed values and metadata to the configured endpoint when there is
 * a usable one, and otherwise, or when the post fails, falls back to the user's
 * mail client. The button shows `busy` while the handler runs.
 */
module Contact {
  import opened Wrappers
  import opened Text
  import opened Mail
  import opened Toasts
  import opened Labels

  const BusyText := "Sending..."
  /** The placeholder form ID left in an unconfigured `data-endpoint`. */
  const Placeholder := "yourFormID"
  const UnknownAgent := "unknown"

  /** The five toast messages of the handler. */
  datatype Message = Incomplete | Sent | ServerError | NetworkError | OpeningMailClient {
    function Wording(): string {
      match this
      case Incomplete => "Please complete all fields before sending."
      case Sent => "Message sent \U{2014} thank you!"
      case ServerError => "Server error, opening email client as fallback."
      case NetworkError => "Network error, opening email client as fallback."
      case OpeningMailClient => "Opening your email client..."
    }
  }

  /** The `type` option passed to `showToast`. */
  datatype Kind = Error | Success | Warn | Info

  /** How the `fetch` of the endpoint ends: a response with `ok` set, another response, or an exception. */
  datatype FetchOutcome = OkResponse | ErrorResponse | Thrown

  /** The JSON body posted to the endpoint. */
  datatype Payload = Payload(name: string, email: string, message: string, date: string, userAgent: string, page: string)

  /** One observable step of the handler, in the order it happens. */
  datatype Effect =
    | Toasted(notice: Message, kind: Kind)
    | MarkBusy
    | Post(endpoint: string, payload: Payload)
    | LogError
    | OpenMail(name: string, email: string, message: string, meta: Metadata)
    | ClearForm
    | Restore

  /** The five ways a submission ends. */
  datatype Route = Rejected | Delivered | ServerFallback | NetworkFallback | MailtoOnly

  /** No field is blank once trimmed. */
  predicate Complete(name: string, email: string, message: string) {
    !IsBlank(name) && !IsBlank(email) && !IsBlank(message)
  }

  /** `form.getAttribute('data-endpoint') || ''`. */
  function EndpointOf(attr: Option<string>): string {
    attr.GetOr([])
  }

  /** `endpoint && !endpoint.includes('yourFormID')`: the form posts only to a configured endpoint. */
  function UsableEndpoint(endpoint: string): (b: bool)
    ensures b <==> endpoint != [] && forall i :: !OccursAt(endpoint, Placeholder, i)
  {
    endpoint != [] && !Contains(endpoint, Placeholder)
  }

  /** `navigator.userAgent || 'unknown'`. */
  function UserAgentOrUnknown(userAgent: string): (r: string)
    ensures r != []
    ensures userAgent != [] ==> r == userAgent
    ensures userAgent == [] ==> r == UnknownAgent
  {
    if userAgent != [] then userAgent else UnknownAgent
  }

  function MetaOf(date: string, userAgent: string, page: string): Metadata {
    Metadata(date, UserAgentOrUnknown(userAgent), page)
  }

  /** The trimmed field values followed by the metadata. */
  function PayloadOf(name: string, email: string, message: string, date: string, userAgent: string, page: string): Payload {
    var meta := MetaOf(date, userAgent, page);
    Payload(Trim(name), Trim(email), Trim(message), meta.date, meta.userAgent, meta.page)
  }

  /** The call `openMailClient(name.value.trim(), email.value.trim(), message.value.trim(), metadata)`. */
  function FallbackCall(name: string, email: string, message: string, date: string, userAgent: string, page: string): Effect {
    OpenMail(Trim(name), Trim(email), Trim(message), MetaOf(date, userAgent, page))
  }

  function RouteOf(name: string, email: string, message: string, endpointAttr: Option<string>, outcome: FetchOutcome): Route {
    if !Complete(name, email, message) then Rejected
    else RouteFor(UsableEndpoint(EndpointOf(endpointAttr)), outcome)
  }

  /** The route of a complete form, from whether the endpoint is usable and how the fetch ends. */
  function RouteFor(usable: bool, outcome: FetchOutcome): Route {
    if !usable then MailtoOnly
    else match outcome
      case OkResponse => Delivered
      case ErrorResponse => ServerFallback
      case Thrown => NetworkFallback
  }

  /** A submission is rejected exactly when a field is blank. */
  lemma RouteRejected(name: string, email: string, message: string, endpointAttr: Option<string>, outcome: FetchOutcome)
    ensures RouteOf(name, email, message, endpointAttr, outcome) == Rejected <==> !Complete(name, email, message)
  {
  }

  /** Which field values, endpoint and fetch outcome lead to each of the other routes. */
  lemma RouteCases(name: string, email: string, message: string, endpointAttr: Option<string>, outcome: FetchOutcome)
    ensures var route := RouteOf(name, email, message, endpointAttr, outcome);
      var posts := Complete(name, email, message) && UsableEndpoint(EndpointOf(endpointAttr));
      && (route.Delivered? || route.ServerFallback? || route.NetworkFallback? <==> posts)
      && (route == MailtoOnly <==> Complete(name, email, message) && !UsableEndpoint(EndpointOf(endpointAttr)))
      && (route == Delivered <==> posts && outcome == OkResponse)
      && (route == ServerFallback <==> posts && outcome == ErrorResponse)
      && (route == NetworkFallback <==> posts && outcome == Thrown)
  {
  }

  /** The routes that end in the mail client. */
  predicate FallsBack(route: Route) {
    route.ServerFallback? || route.NetworkFallback? || route.MailtoOnly?
  }

  /** The URI the fallback assigns to `window.location.href`: `MailtoUri` of the trimmed values and the metadata. */
  function FallbackUri(name: string, email: string, message: string, date: string, userAgent: string, page: string): string {
    MailtoUri(Trim(name), Trim(email), Trim(message), MetaOf(date, userAgent, page))
  }

  /** The toast each route ends with. */
  function Notice(route: Route): (e: Effect)
    ensures e.Toasted?
  {
    match route
    case Rejected => Toasted(Incomplete, Error)
    case Delivered => Toasted(Sent, Success)
    case ServerFallback => Toasted(ServerError, Warn)
    case NetworkFallback => Toasted(NetworkError, Error)
    case MailtoOnly => Toasted(OpeningMailClient, Info)
  }

  /**
   * The toast after `showToast(text)`: shown with `text` when the page has the
   * toast element, otherwise unchanged with `text` alerted instead.
   */
  predicate Announced(present: bool, before: ToastState, alertsBefore: seq<string>,
                      after: ToastState, alertsAfter: seq<string>, text: string) {
    && (present ==> after == Shown(before, text, None) && alertsAfter == alertsBefore)
    && (!present ==> after == before && alertsAfter == alertsBefore + [text])
  }

  /**
   * Where the page is after a route: at `uri` when the route ends in the mail
   * client, where it was before otherwise.
   */
  predicate NavigatesFor(route: Route, before: Option<string>, after: Option<string>, uri: string) {
    if FallsBack(route) then after == Some(uri) else after == before
  }

  /**
   * The form's controls after a route: reset to their defaults with no label
   * floating when the message was delivered, untouched otherwise.
   */
  predicate ClearsFor(route: Route, valuesBefore: seq<string>, filledBefore: seq<bool>,
                      values: seq<string>, filled: seq<bool>, defaults: seq<string>) {
    if route == Delivered then values == defaults && forall i :: 0 <= i < |filled| ==> !filled[i]
    else values == valuesBefore && filled == filledBefore
  }

  /** The steps a route takes, given the post and the navigation it would make. */
  function Steps(route: Route, post: Effect, nav: Effect): seq<Effect> {
    if route == Rejected then [Notice(route)] else [MarkBusy] + Dispatched(route, post, nav) + [Restore]
  }

  /** The steps between marking the button busy and restoring it. */
  function Dispatched(route: Route, post: Effect, nav: Effect): seq<Effect> {
    match route
    case Rejected => []
    case Delivered => [post, Notice(route), ClearForm]
    case ServerFallback => [post, Notice(route), nav]
    case NetworkFallback => [post, LogError, Notice(route), nav]
    case MailtoOnly => [nav, Notice(route)]
  }

  /** A complete submission takes the steps of its route between marking the button busy and restoring it. */
  lemma CompleteSteps(name: string, email: string, message: string, endpointAttr: Option<string>,
                      date: string, userAgent: string, page: string, outcome: FetchOutcome)
    requires Complete(name, email, message)
    ensures RouteOf(name, email, message, endpointAttr, outcome) == RouteFor(UsableEndpoint(EndpointOf(endpointAttr)), outcome)
    ensures SubmitEffects(name, email, message, endpointAttr, date, userAgent, page, outcome)
      == [MarkBusy] + Dispatched(RouteOf(name, email, message, endpointAttr, outcome),
                                 Post(EndpointOf(endpointAttr), PayloadOf(name, email, message, date, userAgent, page)),
                                 FallbackCall(name, email, message, date, userAgent, page)) + [Restore]
    ensures FallbackUri(name, email, message, date, userAgent, page)
      == MailtoUri(Trim(name), Trim(email), Trim(message), MetaOf(date, userAgent, page))
  {
  }

  /** Appending the steps of a submission one at a time appends all of them. */
  lemma AppendSteps(log: seq<Effect>, dispatched: seq<Effect>)
    ensures log + [MarkBusy] + dispatched + [Restore] == log + ([MarkBusy] + dispatched + [Restore])
  {
  }

  /** Appending three or four steps one at a time appends them all. */
  lemma AppendOneByOne(log: seq<Effect>, steps: seq<Effect>)
    requires 2 <= |steps| <= 4
    ensures |steps| == 2 ==> log + [steps[0]] + [steps[1]] == log + steps
    ensures |steps| == 3 ==> log + [steps[0]] + [steps[1]] + [steps[2]] == log + steps
    ensures |steps| == 4 ==> log + [steps[0]] + [steps[1]] + [steps[2]] + [steps[3]] == log + steps
  {
  }

  /** What the steps of each route contain, whatever the post and the navigation are. */
  lemma StepsFacts(route: Route, post: Effect, nav: Effect)
    requires post.Post? && nav.OpenMail?
    ensures var steps := Steps(route, post, nav);
      && (route == Rejected <==> steps == [Toasted(Incomplete, Error)])
      && (route != Rejected ==> |steps| >= 4 && steps[0] == MarkBusy && steps[|steps| - 1] == Restore)
  {
  }

  /**
   * The steps of one submission with the given field values, `data-endpoint`
   * attribute, metadata and fetch outcome (consulted only when the form posts).
   */
  function SubmitEffects(name: string, email: string, message: string, endpointAttr: Option<string>,
                         date: string, userAgent: string, page: string, outcome: FetchOutcome): (effects: seq<Effect>)
    ensures !Complete(name, email, message) <==> effects == [Toasted(Incomplete, Error)]
    ensures Complete(name, email, message) ==>
      |effects| >= 4 && effects[0] == MarkBusy && effects[|effects| - 1] == Restore
  {
    var route := RouteOf(name, email, message, endpointAttr, outcome);
    var post := Post(EndpointOf(endpointAttr), PayloadOf(name, email, message, date, userAgent, page));
    var nav := FallbackCall(name, email, message, date, userAgent, page);
    StepsFacts(route, post, nav);
    RouteRejected(name, email, message, endpointAttr, outcome);
    Steps(route, post, nav)
  }

  /** Only the routes that post have a Post step, and it comes second. */
  lemma StepsPost(route: Route, post: Effect, nav: Effect)
    requires post.Post? && nav.OpenMail?
    ensures var steps := Steps(route, post, nav);
      var posts := route.Delivered? || route.ServerFallback? || route.NetworkFallback?;
      && ((exists i :: 0 <= i < |steps| && steps[i].Post?) <==> posts)
      && (posts ==> steps[1] == post)
      && forall i :: 1 < i < |steps| ==> !steps[i].Post?
  {
    if route.Delivered? || route.ServerFallback? || route.NetworkFallback? {
      assert Steps(route, post, nav)[1].Post?;
    }
  }

  /** Only the fallback routes open the mail client, and always with the same arguments. */
  lemma StepsOpenMail(route: Route, post: Effect, nav: Effect)
    requires post.Post? && nav.OpenMail?
    ensures var steps := Steps(route, post, nav);
      && ((exists i :: 0 <= i < |steps| && steps[i].OpenMail?) <==>
           route.ServerFallback? || route.NetworkFallback? || route.MailtoOnly?)
      && forall i :: 0 <= i < |steps| && steps[i].OpenMail? ==> steps[i] == nav
  {
    var steps := Steps(route, post, nav);
    match route
    case ServerFallback => assert steps[3].OpenMail?;
    case NetworkFallback => assert steps[4].OpenMail?;
    case MailtoOnly => assert steps[1].OpenMail?;
    case _ =>
  }

  /** Only a delivered message clears the form, and only a thrown fetch logs an error. */
  lemma StepsClear(route: Route, post: Effect, nav: Effect)
    requires post.Post? && nav.OpenMail?
    ensures ClearForm in Steps(route, post, nav) <==> route == Delivered
    ensures LogError in Steps(route, post, nav) <==> route == NetworkFallback
  {
    var steps := Steps(route, post, nav);
    match route
    case Delivered => assert steps[3] == ClearForm;
    case NetworkFallback => assert steps[2] == LogError;
    case _ =>
  }

  /** Each route shows exactly one toast, the one Notice names. */
  lemma StepsNotice(route: Route, post: Effect, nav: Effect)
    requires post.Post? && nav.OpenMail?
    ensures var steps := Steps(route, post, nav);
      exists i :: 0 <= i < |steps| && steps[i] == Notice(route) && forall j :: 0 <= j < |steps| && j != i ==> !steps[j].Toasted?
  {
    var steps := Steps(route, post, nav);
    match route
    case Rejected => assert steps[0] == Notice(route);
    case Delivered => assert steps[2] == Notice(route);
    case ServerFallback => assert steps[2] == Notice(route);
    case NetworkFallback => assert steps[3] == Notice(route);
    case MailtoOnly => assert steps[2] == Notice(route);
  }

  /**
   * The form posts, once and right after marking the button busy, exactly when
   * no field is blank and the endpoint is usable; the payload holds the trimmed
   * values and the metadata.
   */
  lemma SubmitPostsOnce(name: string, email: string, message: string, endpointAttr: Option<string>,
                        date: string, userAgent: string, page: string, outcome: FetchOutcome)
    ensures var effects := SubmitEffects(name, email, message, endpointAttr, date, userAgent, page, outcome);
      var posts := Complete(name, email, message) && UsableEndpoint(EndpointOf(endpointAttr));
      && ((exists i :: 0 <= i < |effects| && effects[i].Post?) <==> posts)
      && (posts ==> effects[1] == Post(EndpointOf(endpointAttr), PayloadOf(name, email, message, date, userAgent, page)))
      && forall i :: 1 < i < |effects| ==> !effects[i].Post?
  {
    var route := RouteOf(name, email, message, endpointAttr, outcome);
    var post := Post(EndpointOf(endpointAttr), PayloadOf(name, email, message, date, userAgent, page));
    var nav := FallbackCall(name, email, message, date, userAgent, page);
    assert SubmitEffects(name, email, message, endpointAttr, date, userAgent, page, outcome) == Steps(route, post, nav);
    RouteCases(name, email, message, endpointAttr, outcome);
    StepsPost(route, post, nav);
  }

  /**
   * The handler opens the mail client exactly when the form is complete and did
   * not get an `ok` response from a usable endpoint, always with the trimmed
   * values and the metadata.
   */
  lemma SubmitFallsBack(name: string, email: string, message: string, endpointAttr: Option<string>,
                        date: string, userAgent: string, page: string, outcome: FetchOutcome)
    ensures var effects := SubmitEffects(name, email, message, endpointAttr, date, userAgent, page, outcome);
      && ((exists i :: 0 <= i < |effects| && effects[i].OpenMail?) <==>
           Complete(name, email, message) && !(UsableEndpoint(EndpointOf(endpointAttr)) && outcome == OkResponse))
      && forall i :: 0 <= i < |effects| && effects[i].OpenMail? ==>
           effects[i] == FallbackCall(name, email, message, date, userAgent, page)
  {
    var route := RouteOf(name, email, message, endpointAttr, outcome);
    var post := Post(EndpointOf(endpointAttr), PayloadOf(name, email, message, date, userAgent, page));
    var nav := FallbackCall(name, email, message, date, userAgent, page);
    assert SubmitEffects(name, email, message, endpointAttr, date, userAgent, page, outcome) == Steps(route, post, nav);
    RouteCases(name, email, message, endpointAttr, outcome);
    RouteRejected(name, email, message, endpointAttr, outcome);
    StepsOpenMail(route, post, nav);
  }

  /** The form is cleared only after an `ok` response; the error is logged only when the fetch throws. */
  lemma SubmitClearsOnlyOnSuccess(name: string, email: string, message: string, endpointAttr: Option<string>,
                                  date: string, userAgent: string, page: string, outcome: FetchOutcome)
    ensures var effects := SubmitEffects(name, email, message, endpointAttr, date, userAgent, page, outcome);
      && (ClearForm in effects <==>
           Complete(name, email, message) && UsableEndpoint(EndpointOf(endpointAttr)) && outcome == OkResponse)
      && (LogError in effects <==>
           Complete(name, email, message) && UsableEndpoint(EndpointOf(endpointAttr)) && outcome == Thrown)
  {
    var route := RouteOf(name, email, message, endpointAttr, outcome);
    var post := Post(EndpointOf(endpointAttr), PayloadOf(name, email, message, date, userAgent, page));
    var nav := FallbackCall(name, email, message, date, userAgent, page);
    assert SubmitEffects(name, email, message, endpointAttr, date, userAgent, page, outcome) == Steps(route, post, nav);
    RouteCases(name, email, message, endpointAttr, outcome);
    StepsClear(route, post, nav);
  }

  /** Every submission ends up showing exactly one toast, the one its route calls for. */
  lemma SubmitNotifiesOnce(name: string, email: string, message: string, endpointAttr: Option<string>,
                           date: string, userAgent: string, page: string, outcome: FetchOutcome)
    ensures var effects := SubmitEffects(name, email, message, endpointAttr, date, userAgent, page, outcome);
      exists i :: 0 <= i < |effects| && effects[i] == Notice(RouteOf(name, email, message, endpointAttr, outcome))
        && forall j :: 0 <= j < |effects| && j != i ==> !effects[j].Toasted?
  {
    var route := RouteOf(name, email, message, endpointAttr, outcome);
    var post := Post(EndpointOf(endpointAttr), PayloadOf(name, email, message, date, userAgent, page));
    var nav := FallbackCall(name, email, message, date, userAgent, page);
    assert SubmitEffects(name, email, message, endpointAttr, date, userAgent, page, outcome) == Steps(route, post, nav);
    StepsNotice(route, post, nav);
  }

  /**
   * The fallback URI carries the fixed recipient, the subject naming the sender
   * and the eight-line body built from the trimmed values and the metadata.
   */
  lemma FallbackMailContent(name: string, email: string, message: string, date: string, userAgent: string, page: string)
    ensures ParseMailto(MailtoUri(Trim(name), Trim(email), Trim(message), MetaOf(date, userAgent, page)))
      == Some(Mailto(Recipient, SubjectPrefix + Trim(name), Body(Trim(name), Trim(email), Trim(message), MetaOf(date, userAgent, page))))
  {
    ParseMailtoUri(Trim(name), Trim(email), Trim(message), MetaOf(date, userAgent, page));
  }

  /**
   * The contact form: its fields (with the `#name`, `#email` and `#message`
   * inputs among them), the page's toast, the `data-endpoint` attribute, the
   * submit button, and the steps taken so far.
   */
  class ContactForm {
    const fields: FieldList
    const toast: Toast
    const nameField: nat
    const emailField: nat
    const messageField: nat
    const endpointAttr: Option<string>
    var busy: bool
    var buttonText: string
    var log: seq<Effect>
    /** The last value the script assigned to `window.location.href`; None while it assigned none. */
    var navigatedTo: Option<string>

    ghost predicate Valid()
      reads fields, toast
    {
      && fields.Valid() && toast.Valid()
      && nameField < |fields.values| && emailField < |fields.values| && messageField < |fields.values|
    }

    constructor (fields: FieldList, toast: Toast, nameField: nat, emailField: nat, messageField: nat,
                 endpointAttr: Option<string>, buttonText: string)
      requires fields.Valid() && toast.Valid()
      requires nameField < |fields.values| && emailField < |fields.values| && messageField < |fields.values|
      ensures Valid() && this.fields == fields && this.toast == toast && this.endpointAttr == endpointAttr
      ensures this.nameField == nameField && this.emailField == emailField && this.messageField == messageField
      ensures !busy && this.buttonText == buttonText && log == [] && navigatedTo == None
    {
      this.fields, this.toast := fields, toast;
      this.nameField, this.emailField, this.messageField := nameField, emailField, messageField;
      this.endpointAttr := endpointAttr;
      busy := false;
      this.buttonText := buttonText;
      log := [];
      navigatedTo := None;
    }

    /** `showToast(message, {type: kind})`; the toast itself ignores the kind. */
    method Notify(message: Message, kind: Kind)
      requires toast.Valid()
      modifies this, toast
      ensures toast.Valid() && log == old(log) + [Toasted(message, kind)]
      ensures busy == old(busy) && buttonText == old(buttonText) && navigatedTo == old(navigatedTo)
      ensures Announced(toast.present, old(toast.State()), old(toast.alerts), toast.State(), toast.alerts, message.Wording())
    {
      toast.Show(message.Wording(), None);
      log := log + [Toasted(message, kind)];
    }

    /** `openMailClient(...)`: the page navigates to the `mailto:` URI built from the arguments. */
    method OpenMailClient(name: string, email: string, message: string, meta: Metadata)
      modifies this
      ensures log == old(log) + [OpenMail(name, email, message, meta)]
      ensures navigatedTo == Some(MailtoUri(name, email, message, meta))
      ensures busy == old(busy) && buttonText == old(buttonText)
    {
      navigatedTo := Some(MailtoUri(name, email, message, meta));
      log := log + [OpenMail(name, email, message, meta)];
    }

    /**
     * Lines 94 to 127 of the handler: post to a usable endpoint and act on the
     * outcome, or fall back to the mail client straight away.
     */
    method Dispatch(usable: bool, outcome: FetchOutcome, endpoint: string, payload: Payload,
                    name: string, email: string, message: string, meta: Metadata)
      requires Valid()
      modifies this, fields, toast
      ensures Valid() && busy == old(busy) && buttonText == old(buttonText)
      ensures log == old(log) + Dispatched(RouteFor(usable, outcome), Post(endpoint, payload), OpenMail(name, email, message, meta))
      ensures NavigatesFor(RouteFor(usable, outcome), old(navigatedTo), navigatedTo, MailtoUri(name, email, message, meta))
      ensures Announced(toast.present, old(toast.State()), old(toast.alerts), toast.State(), toast.alerts,
                        Notice(RouteFor(usable, outcome)).notice.Wording())
      ensures ClearsFor(RouteFor(usable, outcome), old(fields.values), old(fields.filled),
                        fields.values, fields.filled, fields.defaults)
    {
      if RouteFor(usable, outcome) == Delivered {
        Deliver(endpoint, payload);
      } else {
        FallBack(RouteFor(usable, outcome), endpoint, payload, name, email, message, meta);
      }
    }

    /** Lines 110 to 112: the post got an `ok` response; thank the user and clear the form. */
    method Deliver(endpoint: string, payload: Payload)
      requires Valid()
      modifies this, fields, toast
      ensures Valid() && busy == old(busy) && buttonText == old(buttonText) && navigatedTo == old(navigatedTo)
      ensures log == old(log) + [Post(endpoint, payload), Toasted(Sent, Success), ClearForm]
      ensures Announced(toast.present, old(toast.State()), old(toast.alerts), toast.State(), toast.alerts, Sent.Wording())
      ensures fields.values == fields.defaults && forall i :: 0 <= i < |fields.filled| ==> !fields.filled[i]
    {
      log := log + [Post(endpoint, payload)];
      Notify(Sent, Success);
      fields.Reset();
      log := log + [ClearForm];
      AppendOneByOne(old(log), [Post(endpoint, payload), Toasted(Sent, Success), ClearForm]);
    }

    /**
     * Lines 113 to 126: a route that ends in the mail client, after a failed
     * post or straight away; the toast and the navigation come in source order.
     */
    method FallBack(route: Route, endpoint: string, payload: Payload,
                    name: string, email: string, message: string, meta: Metadata)
      requires Valid() && FallsBack(route)
      modifies this, toast
      ensures Valid() && busy == old(busy) && buttonText == old(buttonText)
      ensures log == old(log) + Dispatched(route, Post(endpoint, payload), OpenMail(name, email, message, meta))
      ensures navigatedTo == Some(MailtoUri(name, email, message, meta))
      ensures Announced(toast.present, old(toast.State()), old(toast.alerts), toast.State(), toast.alerts,
                        Notice(route).notice.Wording())
    {
      match route
      case ServerFallback =>
        log := log + [Post(endpoint, payload)];
        Notify(ServerError, Warn);
        OpenMailClient(name, email, message, meta);
        AppendOneByOne(old(log), [Post(endpoint, payload), Toasted(ServerError, Warn), OpenMail(name, email, message, meta)]);
      case NetworkFallback =>
        log := log + [Post(endpoint, payload)];
        log := log + [LogError];
        Notify(NetworkError, Error);
        OpenMailClient(name, email, message, meta);
        AppendOneByOne(old(log), [Post(endpoint, payload), LogError, Toasted(NetworkError, Error), OpenMail(name, email, message, meta)]);
      case MailtoOnly =>
        OpenMailClient(name, email, message, meta);
        Notify(OpeningMailClient, Info);
        AppendOneByOne(old(log), [OpenMail(name, email, message, meta), Toasted(OpeningMailClient, Info)]);
    }

    /**
     * The `submit` handler, with the fetch taken as one step whose outcome is
     * given; the date, user agent and page URL are the metadata it reads.
     */
    method Submit(date: string, userAgent: string, page: string, outcome: FetchOutcome)
      requires Valid()
      modifies this, fields, toast
      ensures Valid()
      ensures log == old(log) + SubmitEffects(old(fields.values)[nameField], old(fields.values)[emailField],
                                              old(fields.values)[messageField], endpointAttr, date, userAgent, page, outcome)
      ensures buttonText == old(buttonText)
      ensures busy == (old(busy) && !Complete(old(fields.values)[nameField], old(fields.values)[emailField], old(fields.values)[messageField]))
      ensures Announced(toast.present, old(toast.State()), old(toast.alerts), toast.State(), toast.alerts,
                        Notice(RouteOf(old(fields.values)[nameField], old(fields.values)[emailField],
                                       old(fields.values)[messageField], endpointAttr, outcome)).notice.Wording())
      ensures ClearsFor(RouteOf(old(fields.values)[nameField], old(fields.values)[emailField],
                                old(fields.values)[messageField], endpointAttr, outcome),
                        old(fields.values), old(fields.filled), fields.values, fields.filled, fields.defaults)
      ensures NavigatesFor(RouteOf(old(fields.values)[nameField], old(fields.values)[emailField],
                                   old(fields.values)[messageField], endpointAttr, outcome),
                           old(navigatedTo), navigatedTo,
                           FallbackUri(old(fields.values)[nameField], old(fields.values)[emailField],
                                       old(fields.values)[messageField], date, userAgent, page))
    {
      var name, email, message := fields.values[nameField], fields.values[emailField], fields.values[messageField];
      if !Complete(name, email, message) {
        Notify(Incomplete, Error);
      } else {
        Proceed(name, email, message, date, userAgent, page, outcome);
      }
    }

    /**
     * The handler once every field is filled in: the button shows that it is
     * busy while the message is dispatched, then gets its text back.
     */
    method Proceed(name: string, email: string, message: string, date: string, userAgent: string, page: string,
                   outcome: FetchOutcome)
      requires Valid() && Complete(name, email, message)
      modifies this, fields, toast
      ensures Valid() && !busy && buttonText == old(buttonText)
      ensures log == old(log) + SubmitEffects(name, email, message, endpointAttr, date, userAgent, page, outcome)
      ensures Announced(toast.present, old(toast.State()), old(toast.alerts), toast.State(), toast.alerts,
                        Notice(RouteOf(name, email, message, endpointAttr, outcome)).notice.Wording())
      ensures ClearsFor(RouteOf(name, email, message, endpointAttr, outcome), old(fields.values), old(fields.filled),
                        fields.values, fields.filled, fields.defaults)
      ensures NavigatesFor(RouteOf(name, email, message, endpointAttr, outcome), old(navigatedTo), navigatedTo,
                           FallbackUri(name, email, message, date, userAgent, page))
    {
      CompleteSteps(name, email, message, endpointAttr, date, userAgent, page, outcome);
      var usable := UsableEndpoint(EndpointOf(endpointAttr));
      ghost var route := RouteOf(name, email, message, endpointAttr, outcome);
      busy := true;
      log := log + [MarkBusy];
      var previousText := buttonText;
      buttonText := BusyText;
      Dispatch(usable, outcome, EndpointOf(endpointAttr),
               PayloadOf(name, email, message, date, userAgent, page),
               Trim(name), Trim(email), Trim(message), MetaOf(date, userAgent, page));
      busy := false;
      buttonText := previousText;
      log := log + [Restore];
      AppendSteps(old(log), Dispatched(route,
                                       Post(EndpointOf(endpointAttr), PayloadOf(name, email, message, date, userAgent, page)),
                                       FallbackCall(name, email, message, date, userAgent, page)));
    }
  }
}

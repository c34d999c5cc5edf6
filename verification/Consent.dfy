/** Customer consent: an event log with a projection that gates the creation of messages. */
module Consent {
  import opened Tables

  datatype Channel = Email | Sms

  datatype Purpose = Transactional | Marketing

  datatype Kind = OptIn | OptOut | Withdraw | Unsubscribe | OtherKind

  datatype ConsentState = OptedIn | OptedOut

  datatype Subject = Subject(customer: int, channel: Channel, purpose: Purpose)

  datatype Event = Event(subject: Subject, kind: Kind)

  datatype Template = Template(enabled: bool, body: string, channel: Channel, purpose: Purpose)

  datatype Status = Queued | Sent | Delivered | Failed | Bounced | Retrying

  datatype Message = Message(subject: Subject, requestId: Option<int>, status: Status)

  /** A message's identifier is its index. */
  datatype World = World(
    events: seq<Event>, states: map<Subject, ConsentState>, templates: map<string, Template>, messages: seq<Message>)

  /** `renders` says whether every merge field of the template or free text is an allowed one. */
  datatype Request = Request(
    customer: int, template: Option<string>, channel: Channel, purpose: Purpose, body: Option<string>,
    requestId: Option<int>, renders: bool)

  datatype Action =
    | Record(e: Event)
    | Send(r: Request)
    | Retry(message: nat)
    | Report(message: nat, status: Status)       // a provider callback
    | SetTemplate(code: string, t: Template)

  // ---------- record_event ----------

  function StateOf(k: Kind): Option<ConsentState> {
    match k
    case OptIn => Some(OptedIn)
    case OptOut => Some(OptedOut)
    case Withdraw => Some(OptedOut)
    case Unsubscribe => Some(OptedOut)
    case OtherKind => None
  }

  function Recorded(w: World, e: Event): Outcome<World> {
    if StateOf(e.kind).None? then Raise(ValueError)
    else Ok(w.(events := w.events + [e], states := w.states[e.subject := StateOf(e.kind).value]))
  }

  // ---------- send_message ----------

  /** The gate: transactional messages unless opted out, others only when opted in. */
  predicate Allowed(states: map<Subject, ConsentState>, s: Subject) {
    if s.purpose == Transactional then !(s in states && states[s] == OptedOut) else s in states && states[s] == OptedIn
  }

  /** The first message of a client request. */
  function Existing(messages: seq<Message>, id: Option<int>): Option<nat>
    ensures Existing(messages, id).Some? ==>
              id.Some? && Existing(messages, id).value < |messages|
                  && messages[Existing(messages, id).value].requestId == id
    ensures Existing(messages, id).None? && id.Some? ==> forall i :: 0 <= i < |messages| ==> messages[i].requestId != id
  {
    if messages == [] || id.None? then None
    else
      var front := Existing(messages[..|messages| - 1], id);
      if front.Some? then front
      else if messages[|messages| - 1].requestId == id then Some(|messages| - 1)
      else
        assert forall i :: 0 <= i < |messages| - 1 ==> messages[i] == messages[..|messages| - 1][i];
        None
  }

  /** What a request is about, once its template was looked up: the template's channel and purpose
      replace those of the request. */
  function Addressed(w: World, r: Request): Outcome<Subject> {
    if r.template.Some? && r.template.value != "" then
      var code := r.template.value;
      if code !in w.templates || !w.templates[code].enabled then Raise(NotFound)
      else if w.templates[code].body == "" then Raise(BusinessRuleConflict)
      else Ok(Subject(r.customer, w.templates[code].channel, w.templates[code].purpose))
    else if r.body.GetOr("") == "" then Raise(BusinessRuleConflict)
    else Ok(Subject(r.customer, r.channel, r.purpose))
  }

  /** The world after a request, and the identifier it is answered with. */
  function Sending(w: World, r: Request): Outcome<(World, nat)> {
    var existing := Existing(w.messages, r.requestId);
    if existing.Some? then Ok((w, existing.value))
    else
      var subject :- Addressed(w, r);
      if !Allowed(w.states, subject) then Raise(ConsentRequired)
      else if !r.renders then Raise(BusinessRuleConflict)
      else Ok((w.(messages := w.messages + [Message(subject, r.requestId, Queued)]), |w.messages|))
  }

  function Retried(w: World, i: nat): Outcome<World> {
    if i >= |w.messages| then Raise(NotFound)
    else if w.messages[i].status !in {Failed, Bounced} then Raise(BusinessRuleConflict)
    else Ok(w.(messages := w.messages[i := w.messages[i].(status := Retrying)]))
  }

  function Apply(w: World, a: Action): Outcome<World> {
    match a
    case Record(e) => Recorded(w, e)
    case Send(r) =>
      var sent :- Sending(w, r);
      Ok(sent.0)
    case Retry(i) => Retried(w, i)
    case Report(i, status) =>
      if i >= |w.messages| then Raise(NotFound)
        else Ok(w.(messages := w.messages[i := w.messages[i].(status := status)]))
    case SetTemplate(code, t) => Ok(w.(templates := w.templates[code := t]))
  }

  function Step(w: World, a: Action): World {
    Committed(w, Apply(w, a))
  }

  /** The world after a run from nothing. */
  function Run(actions: seq<Action>): World
    decreases |actions|
  {
    if actions == [] then World([], map[], map[], []) else Step(Run(actions[..|actions| - 1]), actions[|actions| - 1])
  }

  // ---------- the services ----------

  class Desk {
    var events: seq<Event>
    var states: map<Subject, ConsentState>
    var templates: map<string, Template>
    var messages: seq<Message>

    constructor ()
      ensures State() == Run([])
    {
      events, states, templates, messages := [], map[], map[], [];
    }

    function State(): World
      reads this
    {
      World(events, states, templates, messages)
    }

    method RecordEvent(e: Event) returns (r: Outcome<nat>)
      modifies this`events, this`states
      ensures State() == Step(old(State()), Record(e))
      ensures r == if StateOf(e.kind).Some? then Ok(|old(events)|) else Raise(ValueError)
    {
      var state := StateOf(e.kind);
      if state.None? {
        return Raise(ValueError);
      }
      events := events + [e];
      states := states[e.subject := state.value];
      return Ok(|events| - 1);
    }

    method AssertAllowed(s: Subject) returns (r: Outcome<int>)
      ensures r.Ok? <==> Allowed(states, s)
      ensures r.Raise? ==> r.error == ConsentRequired
    {
      var state := if s in states then Some(states[s]) else None;
      if s.purpose == Transactional {
        if state == Some(OptedOut) {
          return Raise(ConsentRequired);
        }
        return Ok(0);
      }
      if state != Some(OptedIn) {
        return Raise(ConsentRequired);
      }
      return Ok(0);
    }

    method SendMessage(req: Request) returns (r: Outcome<nat>)
      modifies this`messages
      ensures match Sending(old(State()), req)
              case Ok(sent) => r == Ok(sent.1) && State() == sent.0
              case Raise(e) => r == Raise(e) && State() == old(State())
    {
      var existing := Existing(messages, req.requestId);
      if existing.Some? {
        return Ok(existing.value);
      }
      var channel, purpose, body := req.channel, req.purpose, req.body.GetOr("");
      if req.template.Some? && req.template.value != "" {
        var code := req.template.value;
        if code !in templates || !templates[code].enabled {
          return Raise(NotFound);
        }
        channel, purpose, body := templates[code].channel, templates[code].purpose, templates[code].body;
      }
      if body == "" {
        return Raise(BusinessRuleConflict);
      }
      var subject := Subject(req.customer, channel, purpose);
      var allowed := AssertAllowed(subject);
      if allowed.Raise? {
        return Raise(allowed.error);
      }
      if !req.renders {
        return Raise(BusinessRuleConflict);
      }
      messages := messages + [Message(subject, req.requestId, Queued)];
      return Ok(|messages| - 1);
    }

    method RetryMessage(i: nat) returns (r: Outcome<int>)
      modifies this`messages
      ensures State() == Step(old(State()), Retry(i))
      ensures r.Ok? <==> Retried(old(State()), i).Ok?
      ensures r.Raise? ==> Retried(old(State()), i) == Raise(r.error)
    {
      if i >= |messages| {
        return Raise(NotFound);
      }
      if messages[i].status !in {Failed, Bounced} {
        return Raise(BusinessRuleConflict);
      }
      messages := messages[i := messages[i].(status := Retrying)];
      return Ok(0);
    }
  }

  // ---------- the projection ----------

  /** The kind of the last event about a subject. */
  function LastKind(events: seq<Event>, s: Subject): Option<Kind> {
    if events == [] then None
    else if events[|events| - 1].subject == s then Some(events[|events| - 1].kind)
    else LastKind(events[..|events| - 1], s)
  }

  /** The stored state of a subject is the image of its last event, and there is none without one. */
  predicate ProjectsAt(w: World, s: Subject) {
    if s in w.states then LastKind(w.events, s).Some? && StateOf(LastKind(w.events, s).value) == Some(w.states[s])
    else LastKind(w.events, s).None?
  }

  lemma {:induction false} StoredStateIsLastEvent(actions: seq<Action>, s: Subject)
    ensures ProjectsAt(Run(actions), s)
    decreases |actions|
  {
    if actions != [] {
      StoredStateIsLastEvent(actions[..|actions| - 1], s);
      StepProjects(Run(actions[..|actions| - 1]), actions[|actions| - 1], s);
    }
  }

  lemma StepProjects(w: World, a: Action, s: Subject)
    requires ProjectsAt(w, s)
    ensures ProjectsAt(Step(w, a), s)
  {
    if a.Record? {
      assert (w.events + [a.e])[..|w.events|] == w.events;
    }
  }

  // ---------- what consent means for messages ----------

  /** What the events recorded so far say about sending to a subject. */
  predicate Consented(events: seq<Event>, s: Subject) {
    var last := LastKind(events, s);
    if s.purpose == Marketing then last == Some(OptIn) else last in {None, Some(OptIn)}
  }

  /** The gate reads one stored state, and lets through exactly what the event log consents to. */
  lemma GateFollowsEvents(actions: seq<Action>, s: Subject)
    ensures Allowed(Run(actions).states, s) <==> Consented(Run(actions).events, s)
  {
    StoredStateIsLastEvent(actions, s);
  }

  /** The n-th call of the run inserted the i-th message, and consent allowed it then. */
  ghost predicate InsertedAt(actions: seq<Action>, i: nat, n: nat) {
    && n < |actions| && actions[n].Send?
    && i < |Run(actions).messages|
    && |Run(actions[..n]).messages| == i
    && Consented(Run(actions[..n]).events, Run(actions).messages[i].subject)
  }

  lemma StepMessages(w: World, a: Action)
    ensures |w.messages| <= |Step(w, a).messages| <= |w.messages| + 1
    ensures forall i :: 0 <= i < |w.messages| ==>
        Step(w, a).messages[i] == w.messages[i].(status := Step(w, a).messages[i].status)
    ensures |Step(w, a).messages| > |w.messages| ==>
        a.Send? && Allowed(w.states, Step(w, a).messages[|w.messages|].subject)
  {
  }

  /** Every message there ever was, was inserted by a call that found consent: for marketing, the
      last event about its subject was an opt-in; otherwise there was none or an opt-in. */
  lemma {:induction false} EveryMessageConsented(actions: seq<Action>, i: nat) returns (n: nat)
    requires i < |Run(actions).messages|
    ensures InsertedAt(actions, i, n)
    decreases |actions|
  {
    var last := |actions| - 1;
    var front, a := actions[..last], actions[last];
    var w := Run(front);
    StepMessages(w, a);
    if i < |w.messages| {
      n := EveryMessageConsented(front, i);
      assert front[..n] == actions[..n];
    } else {
      n := last;
      GateFollowsEvents(front, Run(actions).messages[i].subject);
    }
  }

  // ---------- one message per client request ----------

  predicate RequestsUnique(messages: seq<Message>) {
    forall i, j :: 0 <= i < j < |messages| && messages[i].requestId.Some? ==>
        messages[i].requestId != messages[j].requestId
  }

  /** Over any run each client request inserts at most one message. */
  lemma {:induction false} OneMessagePerRequest(actions: seq<Action>)
    ensures RequestsUnique(Run(actions).messages)
    decreases |actions|
  {
    if actions != [] {
      OneMessagePerRequest(actions[..|actions| - 1]);
      StepMessages(Run(actions[..|actions| - 1]), actions[|actions| - 1]);
    }
  }

  /** Sending a request again, whatever happened to consent in between, answers with its first
      message and inserts nothing. */
  lemma ResendAnswersTheSame(w: World, r: Request, actions: seq<Action>)
    requires r.requestId.Some? && Sending(w, r).Ok?
    requires RequestsUnique(w.messages)
    ensures var sent := Sending(w, r).value;
            Sending(RunFrom(sent.0, actions), r) == Ok((RunFrom(sent.0, actions), sent.1))
  {
    var sent := Sending(w, r).value;
    assert sent.0.messages[sent.1].requestId == r.requestId;
    RunKeepsRequest(sent.0, actions, sent.1, r.requestId);
  }

  function RunFrom(w: World, actions: seq<Action>): World
    decreases |actions|
  {
    if actions == [] then w else RunFrom(Step(w, actions[0]), actions[1..])
  }

  lemma {:induction false} RunKeepsRequest(w: World, actions: seq<Action>, i: nat, id: Option<int>)
    requires id.Some? && i < |w.messages| && w.messages[i].requestId == id && RequestsUnique(w.messages)
    ensures Existing(RunFrom(w, actions).messages, id) == Some(i)
    decreases |actions|
  {
    if actions != [] {
      StepMessages(w, actions[0]);
      RunKeepsRequest(Step(w, actions[0]), actions[1..], i, id);
    }
  }

  // ---------- retries ----------

  /** The events a stretch of a run recorded. */
  function EventsOf(actions: seq<Action>): seq<Event> {
    if actions == [] then []
    else
      var last := actions[|actions| - 1];
      EventsOf(actions[..|actions| - 1]) + (if last.Record? && StateOf(last.e.kind).Some? then [last.e] else [])
  }

  lemma {:induction false} EventsBetween(actions: seq<Action>, n: nat)
    requires n <= |actions|
    ensures Run(actions).events == Run(actions[..n]).events + EventsOf(actions[n..])
    decreases |actions|
  {
    if n == |actions| {
      assert actions[..n] == actions;
    } else {
      var front := actions[..|actions| - 1];
      EventsBetween(front, n);
      assert front[..n] == actions[..n];
      assert actions[n..][..|actions[n..]| - 1] == front[n..];
    }
  }

  lemma {:induction false} LastKindConcat(a: seq<Event>, b: seq<Event>, s: Subject)
    ensures LastKind(a + b, s) == if LastKind(b, s).Some? then LastKind(b, s) else LastKind(a, s)
    decreases |b|
  {
    if b == [] {
      assert a + b == a;
    } else {
      LastKindConcat(a, b[..|b| - 1], s);
      assert (a + b)[..|a + b| - 1] == a + b[..|b| - 1];
    }
  }

  lemma {:induction false} MessagesGrow(actions: seq<Action>, m: nat)
    requires m <= |actions|
    ensures |Run(actions[..m]).messages| <= |Run(actions).messages|
    decreases |actions|
  {
    if m == |actions| {
      assert actions[..m] == actions;
    } else {
      var front := actions[..|actions| - 1];
      assert front[..m] == actions[..m];
      MessagesGrow(front, m);
      StepMessages(Run(front), actions[|actions| - 1]);
    }
  }

  /** The m-th call of the run queued the i-th message again. */
  ghost predicate RetriedAt(actions: seq<Action>, i: nat, m: nat) {
    m < |actions| && actions[m] == Retry(i) && Retried(Run(actions[..m]), i).Ok?
  }

  /** A retry asks for no consent. One made at call m, of a message inserted at call n, is made with
      consent exactly when the last event about its subject between the two is an opt-in, or there
      is none. */
  lemma RetryConsentedExactly(actions: seq<Action>, i: nat, n: nat, m: nat)
    requires InsertedAt(actions, i, n) && RetriedAt(actions, i, m)
    ensures n <= m
    ensures var s := Run(actions).messages[i].subject;
            && (Consented(Run(actions[..m]).events, s) <==> LastKind(EventsOf(actions[n..m]), s) in {None, Some(OptIn)})
  {
    var s := Run(actions).messages[i].subject;
    if m < n {
      assert actions[..n][..m] == actions[..m];
      MessagesGrow(actions[..n], m);
    }
    EventsBetween(actions[..m], n);
    assert actions[..m][..n] == actions[..n] && actions[..m][n..] == actions[n..m];
    LastKindConcat(Run(actions[..n]).events, EventsOf(actions[n..m]), s);
  }

  lemma RunSnoc(actions: seq<Action>, a: Action)
    ensures Run(actions + [a]) == Step(Run(actions), a)
  {
    assert (actions + [a])[..|actions|] == actions;
  }

  function Offer(): Subject {
    Subject(1, Email, Marketing)
  }

  /** A message to an opted-in customer fails. */
  function FailedRun(): seq<Action> {
    [Record(Event(Offer(), OptIn))] + [Send(Request(1, None, Email, Marketing, Some("hello"), None, true))]
        + [Report(0, Failed)]
  }

  lemma FailedWorld()
    ensures Run(FailedRun())
        == World([Event(Offer(), OptIn)], map[Offer() := OptedIn], map[], [Message(Offer(), None, Failed)])
  {
    var opt, send := Record(Event(Offer(), OptIn)), Send(Request(1, None, Email, Marketing, Some("hello"), None, true));
    RunSnoc([], opt);
    assert [] + [opt] == [opt];
    assert Run([opt]) == World([Event(Offer(), OptIn)], map[Offer() := OptedIn], map[], []);
    RunSnoc([opt], send);
    assert Run([opt] + [send]).messages == [Message(Offer(), None, Queued)];
    RunSnoc([opt] + [send], Report(0, Failed));
  }

  /** Then consent is withdrawn, and the message is queued again all the same. */
  lemma RetryAfterWithdrawal()
    ensures var withdrawn := FailedRun() + [Record(Event(Offer(), Withdraw))];
            && RetriedAt(withdrawn + [Retry(0)], 0, |withdrawn|)
            && Run(withdrawn + [Retry(0)]).messages == [Message(Offer(), None, Retrying)]
            && !Consented(Run(withdrawn).events, Offer())
  {
    var withdraw := Record(Event(Offer(), Withdraw));
    var withdrawn := FailedRun() + [withdraw];
    FailedWorld();
    RunSnoc(FailedRun(), withdraw);
    assert Run(withdrawn).events == [Event(Offer(), OptIn), Event(Offer(), Withdraw)];
    RunSnoc(withdrawn, Retry(0));
    assert (withdrawn + [Retry(0)])[..|withdrawn|] == withdrawn;
  }

  // ---------- what a message is about ----------

  predicate UsesTemplate(r: Request) {
    r.template.Some? && r.template.value != ""
  }

  /** A request that may be sent: its template is known, enabled and has a body, or it has a body of its
      own; there is consent for the channel and purpose of the template, or of the request without one;
      and it renders. */
  predicate MaySend(w: World, r: Request) {
    && r.renders
    && if UsesTemplate(r) then
         && r.template.value in w.templates && w.templates[r.template.value].enabled
         && w.templates[r.template.value].body != ""
         && Consented(w.events, Subject(r.customer, w.templates[r.template.value].channel,
                                        w.templates[r.template.value].purpose))
       else r.body.GetOr("") != "" && Consented(w.events, Subject(r.customer, r.channel, r.purpose))
  }

  /** A message as the request and the templates of the time say it. */
  predicate Tells(w: World, r: Request, m: Message) {
    && m.subject.customer == r.customer && m.requestId == r.requestId
    && (if UsesTemplate(r) then
          && r.template.value in w.templates
          && m.subject.channel == w.templates[r.template.value].channel
          && m.subject.purpose == w.templates[r.template.value].purpose
        else m.subject.channel == r.channel && m.subject.purpose == r.purpose)
  }

  /** After any run: a request whose client request is new is accepted exactly when it may be sent, and
      then inserts one queued message. */
  lemma SendGoesExactly(actions: seq<Action>, r: Request)
    requires r.requestId.Some? ==>
               forall i :: 0 <= i < |Run(actions).messages| ==> Run(actions).messages[i].requestId != r.requestId
    ensures var w := Run(actions);
            && (Sending(w, r).Ok? <==> MaySend(w, r))
            && (Sending(w, r).Ok? ==>
                  && |Step(w, Send(r)).messages| == |w.messages| + 1
                  && Step(w, Send(r)).messages[..|w.messages|] == w.messages
                  && Step(w, Send(r)).messages[|w.messages|].status == Queued
                  && Tells(w, r, Step(w, Send(r)).messages[|w.messages|]))
  {
    var w := Run(actions);
    if UsesTemplate(r) {
      if r.template.value in w.templates {
        var t := w.templates[r.template.value];
        GateFollowsEvents(actions, Subject(r.customer, t.channel, t.purpose));
      }
    } else {
      GateFollowsEvents(actions, Subject(r.customer, r.channel, r.purpose));
    }
  }

  /** The n-th call of the run inserted the i-th message, when it might be sent, and the message tells
      its request and the template it named at the time. */
  ghost predicate ToldAt(actions: seq<Action>, i: nat, n: nat) {
    && n < |actions| && actions[n].Send? && i < |Run(actions).messages|
    && |Run(actions[..n]).messages| == i
    && MaySend(Run(actions[..n]), actions[n].r)
    && Tells(Run(actions[..n]), actions[n].r, Run(actions).messages[i])
  }

  /** Every message there ever was is about what its template was about when it was inserted. */
  lemma {:induction false} EveryMessageTold(actions: seq<Action>, i: nat) returns (n: nat)
    requires i < |Run(actions).messages|
    ensures ToldAt(actions, i, n)
    decreases |actions|
  {
    var last := |actions| - 1;
    var front, a := actions[..last], actions[last];
    StepMessages(Run(front), a);
    if i < |Run(front).messages| {
      n := EveryMessageTold(front, i);
      assert front[..n] == actions[..n];
    } else {
      n := last;
      SendGoesExactly(front, a.r);
    }
  }

  /** Every message from a marketing template was inserted while the last event about its customer, the
      template's channel and marketing was an opt-in. */
  lemma MarketingTemplateConsented(actions: seq<Action>, i: nat) returns (n: nat)
    requires i < |Run(actions).messages|
    ensures ToldAt(actions, i, n)
    ensures var w, r := Run(actions[..n]), actions[n].r;
            UsesTemplate(r) && w.templates[r.template.value].purpose == Marketing ==>
              LastKind(w.events, Subject(r.customer, w.templates[r.template.value].channel, Marketing)) == Some(OptIn)
  {
    n := EveryMessageTold(actions, i);
  }

  /** A retry is accepted exactly for a failed or bounced message, and queues it again. */
  lemma RetryGoesExactly(w: World, i: nat)
    ensures Apply(w, Retry(i)).Ok? <==> i < |w.messages| && (w.messages[i].status == Failed
                                                             || w.messages[i].status == Bounced)
    ensures Apply(w, Retry(i)).Ok? ==>
              Step(w, Retry(i)) == w.(messages := w.messages[i := w.messages[i].(status := Retrying)])
  {
  }

  /** An event is recorded exactly when its kind is one of the four, and only an opt-in opts in. */
  lemma RecordGoesExactly(w: World, e: Event)
    ensures Apply(w, Record(e)).Ok? <==> e.kind in {OptIn, OptOut, Withdraw, Unsubscribe}
    ensures Apply(w, Record(e)).Ok? ==>
              Step(w, Record(e))
                == w.(events := w.events + [e],
                      states := w.states[e.subject := if e.kind == OptIn then OptedIn else OptedOut])
  {
  }
}

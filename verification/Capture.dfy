// The capture channel as a state machine: connections that talk, one listener that owns the catalog, and the
// daemon behind it (crates/gunda-capture/src/server.rs). Any step of any party may come next.
module CaptureProtocol {
  import opened Basics
  import opened Text
  import opened Urls
  import opened Catalogs
  import opened Pages

  const MAX_CONNECTIONS: nat := 8
  const SUBMISSION_CAPACITY: nat := 64
  const COMMAND_CAPACITY: nat := 16
  const DEFAULT_CAPACITY: nat := 256
  const PROTOCOL_VERSION: nat := 3
  const DEFAULT_PATH := "/capture"
  const EXTENSION_SCHEMES := ["chrome-extension://", "moz-extension://", "safari-web-extension://"]

  // ---- Messages ----

  datatype Refusal =
    | UnsupportedUrl | UnsupportedMedia | SegmentStream | UnsupportedSource
    | NoCapture | NoDownload | CaptureUnavailable | UnsupportedVersion

  /** What the user chose, passed through to the daemon as it came. */
  datatype Choice = Choice(format: Option<string>, directory: Option<string>, filename: Option<string>)

  /** A message from the extension, with what validating its URLs said. */
  datatype Message =
    | Hello(version: nat, offered: string)
    | Candidate(report: Result<Report, Refusal>)
    | DownloadBrowser(browser: Result<Report, Refusal>, choice: Choice)
    | Source(reports: Result<seq<Report>, Refusal>)
    | DownloadPage(page: Result<Url, Refusal>, captureId: Option<nat>, choice: Choice)
    | ListFormats(page: Result<Url, Refusal>)
    | DownloadStatus(id: nat)
    | Unreadable

  datatype Response =
    | Refused(reason: Refusal)
    | Malformed
    | Accepted(id: nat)
    | Duplicate(id: nat)
    | RecordedAll(accepted: seq<nat>, duplicates: seq<nat>)
    | Queued(download: nat)
    | DownloadUnavailable(reason: Refusal)
    | PageFormats(captureId: nat, formats: seq<string>)
    | FormatsUnavailable(reason: Refusal)
    | Status(status: string)
    | StatusUnavailable(reason: Refusal)

  /** What a connection asks of the listener. */
  datatype Request =
    | FormatsOf(page: Url)
    | DownloadOf(page: Url, captureId: Option<nat>, choice: Choice)
    | StatusOf(id: nat)

  /** What the listener asks of the daemon. */
  datatype Event =
    | FormatsRequested(candidate: Catalogs.Candidate)
    | DownloadRequested(candidate: Catalogs.Candidate, choice: Choice)
    | StatusRequested(id: nat)

  /** What the daemon says. */
  datatype Answer =
    | Queue(download: nat)
    | Formats(captureId: nat, formats: seq<string>)
    | Progress(status: string)
    | Refuse(reason: Refusal)

  predicate CanAnswer(event: Event, answer: Answer) {
    match event
    case FormatsRequested(_) => answer.Formats? || answer.Refuse?
    case DownloadRequested(_, _) => answer.Queue? || answer.Refuse?
    case StatusRequested(_) => answer.Progress? || answer.Refuse?
  }

  // ---- Connections ----

  /** One message, what the daemon was asked because of it, and what was said back. */
  datatype Exchange = Exchange(message: Message, event: Option<Event>, response: Response)

  /** The reports of one message still to be recorded, and the numbers given so far. */
  datatype Job = Job(rest: seq<Report>, accepted: seq<nat>, duplicates: seq<nat>)

  const NO_JOB := Job([], [], [])

  /** Where a connection's task is. A ticket names the one-shot channel it waits on. */
  datatype Phase =
    | Upgrading(path: string, origin: Option<string>)
    | Greeting
    | Leaving
    | Welcoming
    | Idle
    | Submitting(report: Report, job: Job)
    | Submitted(ticket: nat, report: Report, job: Job)
    | Acknowledged(report: Report, recorded: Recorded, job: Job)
    | Requesting(request: Request)
    | Requested(ticket: nat, request: Request)
    | Answered(event: Option<Event>, answer: Answer)
    | Responding(exchange: Exchange)
    | Closed

  datatype Connection = Connection(phase: Phase, greeting: Option<Message>, heard: seq<Message>, exchanges: seq<Exchange>)

  datatype Submission = Submission(ticket: nat, owner: nat, report: Report)

  datatype Pending = Pending(ticket: nat, owner: nat, request: Request)

  datatype Forwarded = Forwarded(ticket: nat, owner: nat, request: Request, event: Event)

  /** `issued` and `reporters` are a record for the proofs: which URL each number was given to, and whose report it was. */
  datatype Server = Server(
    token: string,
    catalog: Listing,
    issued: seq<string>,
    reporters: seq<nat>,
    connections: map<nat, Connection>,
    open: set<nat>,
    submissions: seq<Submission>,
    requests: seq<Pending>,
    events: seq<Forwarded>,
    tickets: nat)

  function Start(token: string): Server {
    Server(token, EMPTY, [], [], map[], {}, [], [], [], 0)
  }

  // ---- What one connection does on its own ----

  predicate OriginAllowed(origin: Option<string>) {
    origin.None? || exists i :: 0 <= i < |EXTENSION_SCHEMES| && EXTENSION_SCHEMES[i] <= origin.value
  }

  predicate TokenMatches(token: string, offered: string) {
    Lowercase(Trim(offered)) == token
  }

  /** A greeting that lets a connection in. */
  predicate IsWelcome(token: string, message: Message) {
    message.Hello? && message.version <= PROTOCOL_VERSION && TokenMatches(token, message.offered)
  }

  function AfterGreeting(token: string, message: Message): Phase {
    if message.Unreadable? then Closed
    else if !message.Hello? || message.version > PROTOCOL_VERSION then Leaving
    else if !TokenMatches(token, message.offered) then Closed
    else Welcoming
  }

  function Say(message: Message, response: Response): Phase {
    Responding(Exchange(message, None, response))
  }

  function AfterMessage(message: Message): Phase {
    match message
    case Hello(_, _) => Say(message, Malformed)
    case Unreadable => Say(message, Malformed)
    case Candidate(Ok(report)) => Submitting(report, NO_JOB)
    case Candidate(Err(reason)) => Say(message, Refused(reason))
    case DownloadBrowser(Ok(report), _) => Submitting(report, NO_JOB)
    case DownloadBrowser(Err(reason), _) => Say(message, DownloadUnavailable(reason))
    case Source(Ok(reports)) =>
      if reports == [] then Say(message, RecordedAll([], [])) else Submitting(reports[0], Job(reports[1..], [], []))
    case Source(Err(reason)) => Say(message, Refused(reason))
    case DownloadPage(Ok(page), captureId, choice) => Requesting(DownloadOf(page, captureId, choice))
    case DownloadPage(Err(reason), _, _) => Say(message, DownloadUnavailable(reason))
    case ListFormats(Ok(page)) => Requesting(FormatsOf(page))
    case ListFormats(Err(reason)) => Say(message, FormatsUnavailable(reason))
    case DownloadStatus(id) => Requesting(StatusOf(id))
  }

  function AfterRecorded(message: Message, report: Report, recorded: Recorded, job: Job): Phase {
    match message
    case DownloadBrowser(_, choice) =>
      Requesting(DownloadOf(report.pageUrl, Some(recorded.id), choice.(format := None)))
    case Source(_) =>
      var accepted := if recorded.duplicate then job.accepted else job.accepted + [recorded.id];
      var duplicates := if recorded.duplicate then job.duplicates + [recorded.id] else job.duplicates;
      if job.rest == [] then Say(message, RecordedAll(accepted, duplicates))
      else Submitting(job.rest[0], Job(job.rest[1..], accepted, duplicates))
    case _ => Say(message, if recorded.duplicate then Duplicate(recorded.id) else Accepted(recorded.id))
  }

  function Reply(message: Message, answer: Answer): Response {
    match answer
    case Queue(download) => Queued(download)
    case Formats(captureId, formats) => PageFormats(captureId, formats)
    case Progress(status) => Status(status)
    case Refuse(reason) =>
      if message.ListFormats? then FormatsUnavailable(reason)
      else if message.DownloadStatus? then StatusUnavailable(reason)
      else DownloadUnavailable(reason)
  }

  // ---- What the listener does ----

  /** The candidate a request is about: the one it names, or the best one of its page. */
  function EventFor(catalog: Listing, request: Request): (event: Option<Event>) {
    match request
    case StatusOf(id) => Some(StatusRequested(id))
    case FormatsOf(page) =>
      var candidate :- Best(catalog.candidates, page);
      Some(FormatsRequested(candidate))
    case DownloadOf(page, captureId, choice) =>
      var candidate :- if captureId.Some? then Get(catalog.candidates, captureId.value) else Best(catalog.candidates, page);
      Some(DownloadRequested(candidate, choice))
  }

  // ---- Steps ----

  datatype Label =
    | Connect(who: nat, path: string, origin: Option<string>)
    | Upgrade(who: nat)
    | Greet(who: nat, message: Message)
    | Welcome(who: nat)
    | Receive(who: nat, message: Message)
    | Send(who: nat)
    | Note
    | Continue(who: nat)
    | Serve(daemonListens: bool)
    | Decide(k: nat, answer: Answer)
    | Respond(who: nat)
    | Disconnect(who: nat)
    | Remove(id: nat)
    | Clear

  /** One connection changed; a closed one gives its permit back. */
  function WithConnection(s: Server, who: nat, c: Connection): Server {
    s.(connections := s.connections[who := c], open := if c.phase == Closed then s.open - {who} else s.open)
  }

  function WithPhase(s: Server, who: nat, phase: Phase): Server
    requires who in s.connections
  {
    WithConnection(s, who, s.connections[who].(phase := phase))
  }

  /** An answer goes to whoever still waits on its ticket. */
  function Deliver(s: Server, ticket: nat, owner: nat, event: Option<Event>, answer: Answer): Server {
    if owner in s.connections && s.connections[owner].phase.Requested? && s.connections[owner].phase.ticket == ticket
    then WithPhase(s, owner, Answered(event, answer))
    else s
  }

  function Acknowledge(s: Server, ticket: nat, owner: nat, recorded: Recorded): Server {
    if owner in s.connections && s.connections[owner].phase.Submitted? && s.connections[owner].phase.ticket == ticket
    then
      var phase := s.connections[owner].phase;
      WithPhase(s, owner, Acknowledged(phase.report, recorded, phase.job))
    else s
  }

  function Step(s: Server, step: Label): (r: Option<Server>) {
    match step
    case Connect(who, path, origin) =>
      if who in s.connections || |s.open| >= MAX_CONNECTIONS then None
      else Some(s.(connections := s.connections[who := Connection(Upgrading(path, origin), None, [], [])], open := s.open + {who}))
    case Note => StepNote(s)
    case Serve(daemonListens) => StepServe(s, daemonListens)
    case Decide(k, answer) => StepDecide(s, k, answer)
    case Remove(id) => Some(s.(catalog := s.catalog.(candidates := Without(s.catalog.candidates, id))))
    case Clear => Some(s.(catalog := s.catalog.(candidates := [])))
    case _ => if step.who in s.connections then StepOf(s, step, s.connections[step.who]) else None
  }

  /** One step of a connection's own task. */
  function StepOf(s: Server, step: Label, c: Connection): (r: Option<Server>)
    requires step.Upgrade? || step.Greet? || step.Welcome? || step.Receive? || step.Send? || step.Continue?
             || step.Respond? || step.Disconnect?
    requires step.who in s.connections && c == s.connections[step.who]
  {
    var who := step.who;
    match step
    case Upgrade(_) =>
      if !c.phase.Upgrading? then None
      else Some(WithPhase(s, who, if c.phase.path == DEFAULT_PATH && OriginAllowed(c.phase.origin) then Greeting else Closed))
    case Greet(_, message) =>
      if c.phase != Greeting then None
      else Some(WithConnection(s, who, c.(greeting := Some(message), phase := AfterGreeting(s.token, message))))
    case Welcome(_) => if c.phase != Welcoming then None else Some(WithPhase(s, who, Idle))
    case Receive(_, message) =>
      if c.phase != Idle then None
      else Some(WithConnection(s, who, c.(heard := c.heard + [message], phase := AfterMessage(message))))
    case Send(_) => StepSend(s, who, c)
    case Continue(_) =>
      if c.heard == [] then None
      else
        var message := c.heard[|c.heard| - 1];
        if c.phase.Acknowledged? then
          Some(WithPhase(s, who, AfterRecorded(message, c.phase.report, c.phase.recorded, c.phase.job)))
        else if c.phase.Answered? then
          Some(WithPhase(s, who, Responding(Exchange(message, c.phase.event, Reply(message, c.phase.answer)))))
        else None
    case Respond(_) =>
      if !c.phase.Responding? then None
      else Some(WithConnection(s, who, c.(exchanges := c.exchanges + [c.phase.exchange], phase := Idle)))
    case Disconnect(_) => Some(WithPhase(s, who, Closed))
  }

  /** A report or a request goes into its channel when there is room. */
  function StepSend(s: Server, who: nat, c: Connection): (r: Option<Server>)
    requires who in s.connections && c == s.connections[who]
  {
    if c.phase.Submitting? && |s.submissions| < SUBMISSION_CAPACITY then
      Some(WithPhase(s, who, Submitted(s.tickets, c.phase.report, c.phase.job))
           .(submissions := s.submissions + [Submission(s.tickets, who, c.phase.report)], tickets := s.tickets + 1))
    else if c.phase.Requesting? && |s.requests| < COMMAND_CAPACITY then
      Some(WithPhase(s, who, Requested(s.tickets, c.phase.request))
           .(requests := s.requests + [Pending(s.tickets, who, c.phase.request)], tickets := s.tickets + 1))
    else None
  }

  function StepNote(s: Server): (r: Option<Server>) {
    if s.submissions == [] then None
    else
      var next := s.submissions[0];
      var (catalog, recorded) := AfterRecord(s.catalog, DEFAULT_CAPACITY, next.report);
      Some(Acknowledge(
             s.(catalog := catalog,
                issued := Issue(s.catalog, s.issued, Op.Record(next.report)),
                reporters := if recorded.duplicate then s.reporters else s.reporters + [next.owner],
                submissions := s.submissions[1..]),
             next.ticket, next.owner, recorded))
  }

  function StepServe(s: Server, daemonListens: bool): (r: Option<Server>) {
    if s.requests == [] then None
    else
      var next := s.requests[0];
      var taken := s.(requests := s.requests[1..]);
      match EventFor(s.catalog, next.request)
      case None => Some(Deliver(taken, next.ticket, next.owner, None, Refuse(NoCapture)))
      case Some(event) =>
        if daemonListens then Some(taken.(events := s.events + [Forwarded(next.ticket, next.owner, next.request, event)]))
        else Some(Deliver(taken, next.ticket, next.owner, None, Refuse(CaptureUnavailable)))
  }

  function StepDecide(s: Server, k: nat, answer: Answer): (r: Option<Server>) {
    if k >= |s.events| || !CanAnswer(s.events[k].event, answer) then None
    else
      var next := s.events[k];
      Some(Deliver(s.(events := s.events[..k] + s.events[k + 1..]), next.ticket, next.owner, Some(next.event), answer))
  }

  /** The server after the first `n` steps, if each could be taken. */
  function Reached(token: string, labels: seq<Label>, n: nat): (r: Option<Server>)
    requires n <= |labels|
  {
    if n == 0 then Some(Start(token))
    else
      var before :- Reached(token, labels, n - 1);
      Step(before, labels[n - 1])
  }
}

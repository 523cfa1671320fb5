// What every reachable state of the capture channel keeps (crates/gunda-capture/src/server.rs).
module CaptureSafety {
  import opened Basics
  import opened Urls
  import opened Catalogs
  import opened Pages
  import opened CaptureProtocol

  // ---- What a message may lead to ----

  ghost predicate IssuedTo(issued: seq<string>, id: nat, url: string) {
    id < |issued| && issued[id] == url
  }

  /** Every report has its number among `ids`, and there are as many numbers as reports. */
  ghost predicate Numbered(issued: seq<string>, reports: seq<Report>, ids: seq<nat>) {
    && |ids| == |reports|
    && forall r :: r in reports ==> exists id :: id in ids && IssuedTo(issued, id, r.url)
  }

  /** The report being recorded is the message's own, and those before it have their numbers. */
  ghost predicate JobFits(issued: seq<string>, m: Message, report: Report, job: Job) {
    match m
    case Candidate(Ok(r)) => r == report && job == NO_JOB
    case DownloadBrowser(Ok(r), _) => r == report && job == NO_JOB
    case Source(Ok(reports)) =>
      var done := |job.accepted| + |job.duplicates|;
      && done < |reports| && reports[done] == report && reports[done + 1..] == job.rest
      && Numbered(issued, reports[..done], job.accepted + job.duplicates)
    case _ => false
  }

  ghost predicate RequestFits(issued: seq<string>, m: Message, request: Request) {
    match m
    case DownloadBrowser(Ok(r), choice) =>
      && request.DownloadOf? && request.page == r.pageUrl && request.choice == choice.(format := None)
      && request.captureId.Some? && IssuedTo(issued, request.captureId.value, r.url)
    case DownloadPage(Ok(page), captureId, choice) => request == DownloadOf(page, captureId, choice)
    case ListFormats(Ok(page)) => request == FormatsOf(page)
    case DownloadStatus(id) => request == StatusOf(id)
    case _ => false
  }

  /** What the listener may ask the daemon for a request. */
  ghost predicate Serves(issued: seq<string>, request: Request, event: Event) {
    match request
    case StatusOf(id) => event == StatusRequested(id)
    case FormatsOf(page) => event.FormatsRequested? && SamePage(event.candidate.report.pageUrl, page)
    case DownloadOf(page, captureId, choice) =>
      && event.DownloadRequested? && event.choice == choice
      && match captureId
         case Some(id) => event.candidate.id == id && IssuedTo(issued, id, event.candidate.report.url)
         case None => SamePage(event.candidate.report.pageUrl, page)
  }

  /**
   * What the daemon may be asked for a message: the very candidate the message names, by number or by
   * the URL it reports itself, and otherwise one of the page it names.
   */
  ghost predicate EventFits(m: Message, event: Event) {
    match m
    case DownloadBrowser(Ok(r), choice) =>
      event.DownloadRequested? && event.candidate.report.url == r.url && event.choice == choice.(format := None)
    case DownloadPage(Ok(page), Some(id), choice) =>
      event.DownloadRequested? && event.candidate.id == id && event.choice == choice
    case DownloadPage(Ok(page), None, choice) =>
      event.DownloadRequested? && SamePage(event.candidate.report.pageUrl, page) && event.choice == choice
    case ListFormats(Ok(page)) => event.FormatsRequested? && SamePage(event.candidate.report.pageUrl, page)
    case DownloadStatus(id) => event == StatusRequested(id)
    case _ => false
  }

  ghost predicate AnswerFits(m: Message, event: Option<Event>, answer: Answer) {
    match event
    case Some(e) => EventFits(m, e) && CanAnswer(e, answer)
    case None => Asks(m) && (answer == Refuse(NoCapture) || answer == Refuse(CaptureUnavailable))
  }

  predicate Asks(m: Message) {
    || (m.DownloadBrowser? && m.browser.Ok?) || (m.DownloadPage? && m.page.Ok?) || (m.ListFormats? && m.page.Ok?)
    || m.DownloadStatus?
  }

  /** A response that answers its message, with the right candidate behind it or with a refusal. */
  ghost predicate Fair(issued: seq<string>, x: Exchange) {
    if Asks(x.message) then
      && (x.event.Some? ==> EventFits(x.message, x.event.value))
      && match x.message
         case ListFormats(_) =>
           if x.event.Some? then x.response.PageFormats? || x.response.FormatsUnavailable?
           else x.response == FormatsUnavailable(NoCapture) || x.response == FormatsUnavailable(CaptureUnavailable)
         case DownloadStatus(_) =>
           if x.event.Some? then x.response.Status? || x.response.StatusUnavailable?
           else x.response == StatusUnavailable(NoCapture) || x.response == StatusUnavailable(CaptureUnavailable)
         case _ =>
           if x.event.Some? then x.response.Queued? || x.response.DownloadUnavailable?
           else x.response == DownloadUnavailable(NoCapture) || x.response == DownloadUnavailable(CaptureUnavailable)
    else
      x.event.None?
      && match x.message
         case Candidate(Ok(r)) =>
           || (x.response.Accepted? && IssuedTo(issued, x.response.id, r.url))
           || (x.response.Duplicate? && IssuedTo(issued, x.response.id, r.url))
         case Candidate(Err(reason)) => x.response == Refused(reason)
         case Source(Ok(reports)) =>
           x.response.RecordedAll? && Numbered(issued, reports, x.response.accepted + x.response.duplicates)
         case Source(Err(reason)) => x.response == Refused(reason)
         case DownloadBrowser(Err(reason), _) => x.response == DownloadUnavailable(reason)
         case DownloadPage(Err(reason), _, _) => x.response == DownloadUnavailable(reason)
         case ListFormats(Err(reason)) => x.response == FormatsUnavailable(reason)
         case _ => x.response == Malformed
  }

  ghost predicate PhaseFits(issued: seq<string>, m: Message, phase: Phase) {
    match phase
    case Submitting(report, job) => JobFits(issued, m, report, job)
    case Submitted(_, report, job) => JobFits(issued, m, report, job)
    case Acknowledged(report, recorded, job) =>
      JobFits(issued, m, report, job) && IssuedTo(issued, recorded.id, report.url)
    case Requesting(request) => RequestFits(issued, m, request)
    case Requested(_, request) => RequestFits(issued, m, request)
    case Answered(event, answer) => AnswerFits(m, event, answer)
    case Responding(x) => x.message == m && Fair(issued, x)
    case _ => false
  }

  // ---- Connections ----

  predicate BeforeGreeting(phase: Phase) {
    phase.Upgrading? || phase.Greeting? || phase.Leaving?
  }

  ghost predicate Welcomed(token: string, c: Connection) {
    c.greeting.Some? && IsWelcome(token, c.greeting.value)
  }

  /** One fair response to each message, in order; the last message may still be waiting for its own. */
  ghost predicate InOrder(issued: seq<string>, c: Connection) {
    && |c.exchanges| <= |c.heard| <= |c.exchanges| + 1
    && forall i :: 0 <= i < |c.exchanges| ==> c.exchanges[i].message == c.heard[i] && Fair(issued, c.exchanges[i])
  }

  ghost predicate PhaseAgrees(issued: seq<string>, c: Connection) {
    match c.phase
    case Upgrading(_, _) => c.heard == [] && c.greeting.None?
    case Greeting => c.heard == [] && c.greeting.None?
    case Leaving => c.heard == []
    case Welcoming => c.heard == []
    case Idle => |c.heard| == |c.exchanges|
    case Closed => true
    case _ => |c.heard| == |c.exchanges| + 1 && PhaseFits(issued, c.heard[|c.heard| - 1], c.phase)
  }

  ghost predicate Kept(token: string, issued: seq<string>, c: Connection) {
    && ((c.heard != [] || !(BeforeGreeting(c.phase) || c.phase.Closed?)) ==> Welcomed(token, c))
    && InOrder(issued, c)
    && PhaseAgrees(issued, c)
  }

  // ---- The whole state ----

  ghost predicate ConnectionsKept(s: Server) {
    forall who :: who in s.connections ==> Kept(s.token, s.issued, s.connections[who])
  }

  ghost predicate PermitsHeld(s: Server) {
    && |s.open| <= MAX_CONNECTIONS
    && forall who :: who in s.open <==> who in s.connections && s.connections[who].phase != Closed
  }

  /** Who a queued item belongs to greeted before; and if they still wait on its ticket, it is what they sent. */
  ghost predicate SubmissionHeld(s: Server, e: Submission) {
    && e.ticket < s.tickets && e.owner in s.connections
    && var c := s.connections[e.owner];
       && Welcomed(s.token, c)
       && (c.phase.Submitted? && c.phase.ticket == e.ticket ==> c.phase.report == e.report)
  }

  ghost predicate RequestHeld(s: Server, ticket: nat, owner: nat, request: Request) {
    && ticket < s.tickets && owner in s.connections
    && var c := s.connections[owner];
       && Welcomed(s.token, c)
       && (c.phase.Requested? && c.phase.ticket == ticket ==> c.phase.request == request)
  }

  ghost predicate QueuesHeld(s: Server) {
    && |s.submissions| <= SUBMISSION_CAPACITY && |s.requests| <= COMMAND_CAPACITY
    && (forall i :: 0 <= i < |s.submissions| ==> SubmissionHeld(s, s.submissions[i]))
    && (forall i :: 0 <= i < |s.requests| ==> RequestHeld(s, s.requests[i].ticket, s.requests[i].owner, s.requests[i].request))
    && (forall i :: 0 <= i < |s.events| ==>
                      && RequestHeld(s, s.events[i].ticket, s.events[i].owner, s.events[i].request)
                      && Serves(s.issued, s.events[i].request, s.events[i].event))
  }

  ghost predicate Inv(s: Server) {
    && WellKept(s.catalog, DEFAULT_CAPACITY, s.issued)
    && ConnectionsKept(s) && PermitsHeld(s) && QueuesHeld(s)
  }

  // ---- Numbers only ever get added ----

  lemma FairGrows(a: seq<string>, b: seq<string>, x: Exchange)
    requires a <= b && Fair(a, x)
    ensures Fair(b, x)
  {
  }

  lemma PhaseGrows(a: seq<string>, b: seq<string>, m: Message, phase: Phase)
    requires a <= b && PhaseFits(a, m, phase)
    ensures PhaseFits(b, m, phase)
  {
  }

  lemma KeptGrows(token: string, a: seq<string>, b: seq<string>, c: Connection)
    requires a <= b && Kept(token, a, c)
    ensures Kept(token, b, c)
  {
    hide Fair, PhaseFits, Welcomed;
    forall i | 0 <= i < |c.exchanges| ensures Fair(b, c.exchanges[i]) {
      FairGrows(a, b, c.exchanges[i]);
    }
    if !BeforeGreeting(c.phase) && !c.phase.Welcoming? && !c.phase.Idle? && !c.phase.Closed? {
      PhaseGrows(a, b, c.heard[|c.heard| - 1], c.phase);
    }
  }

  // ---- One step of a connection ----

  /** Changing one connection touches nothing else. */
  lemma ChangeOne(s: Server, who: nat, c: Connection)
    requires Inv(s) && who in s.connections && Kept(s.token, s.issued, c)
    requires s.connections[who].phase == Closed ==> c.phase == Closed
    requires Welcomed(s.token, s.connections[who]) ==> Welcomed(s.token, c)
    requires !c.phase.Submitted? && !c.phase.Requested?
    ensures Inv(WithConnection(s, who, c))
  {
    hide WellKept, Kept, Welcomed, Serves;
    var t := WithConnection(s, who, c);
    assert t.open <= s.open;
    SubsetIsSmaller(t.open, s.open);
    forall i | 0 <= i < |s.submissions| ensures SubmissionHeld(t, s.submissions[i]) {
      assert SubmissionHeld(s, s.submissions[i]);
    }
    forall i | 0 <= i < |s.requests| ensures RequestHeld(t, s.requests[i].ticket, s.requests[i].owner, s.requests[i].request) {
      assert RequestHeld(s, s.requests[i].ticket, s.requests[i].owner, s.requests[i].request);
    }
    forall i | 0 <= i < |s.events| ensures RequestHeld(t, s.events[i].ticket, s.events[i].owner, s.events[i].request) {
      assert RequestHeld(s, s.events[i].ticket, s.events[i].owner, s.events[i].request);
    }
  }

  lemma {:induction false} SubsetIsSmaller(a: set<nat>, b: set<nat>)
    requires a <= b
    ensures |a| <= |b|
  {
    if a != {} {
      var x :| x in a;
      SubsetIsSmaller(a - {x}, b - {x});
    }
  }

  lemma FirstPhaseIsKept(token: string, issued: seq<string>, c: Connection, message: Message)
    requires Kept(token, issued, c)
    requires c.phase == Idle
    ensures Kept(token, issued, c.(heard := c.heard + [message], phase := AfterMessage(message)))
  {
    hide Fair, PhaseFits, IsWelcome, AfterMessage;
    AfterMessageFits(issued, message);
  }

  lemma AfterMessageFits(issued: seq<string>, message: Message)
    ensures PhaseFits(issued, message, AfterMessage(message))
    ensures !BeforeGreeting(AfterMessage(message)) && !AfterMessage(message).Welcoming? && !AfterMessage(message).Idle?
    ensures !AfterMessage(message).Closed? && !AfterMessage(message).Submitted? && !AfterMessage(message).Requested?
  {
  }

  lemma AfterRecordedFits(issued: seq<string>, m: Message, report: Report, recorded: Recorded, job: Job)
    requires JobFits(issued, m, report, job) && IssuedTo(issued, recorded.id, report.url)
    ensures PhaseFits(issued, m, AfterRecorded(m, report, recorded, job))
    ensures var phase := AfterRecorded(m, report, recorded, job);
            phase.Submitting? || phase.Requesting? || phase.Responding?
  {
    hide EventFits, Numbered;
    if m.Source? {
      var reports, done := m.reports.value, |job.accepted| + |job.duplicates|;
      var accepted := if recorded.duplicate then job.accepted else job.accepted + [recorded.id];
      var duplicates := if recorded.duplicate then job.duplicates + [recorded.id] else job.duplicates;
      OneMoreNumber(issued, reports[..done], job, report, recorded);
      assert reports[..done] + [report] == reports[..done + 1];
      if job.rest == [] {
        assert reports[..done + 1] == reports;
      }
    }
  }

  lemma OneMoreNumber(issued: seq<string>, before: seq<Report>, job: Job, report: Report, recorded: Recorded)
    requires Numbered(issued, before, job.accepted + job.duplicates) && IssuedTo(issued, recorded.id, report.url)
    ensures Numbered(issued, before + [report],
                     (if recorded.duplicate then job.accepted else job.accepted + [recorded.id])
                     + if recorded.duplicate then job.duplicates + [recorded.id] else job.duplicates)
  {
  }

  lemma ReplyIsFair(issued: seq<string>, m: Message, event: Option<Event>, answer: Answer)
    requires AnswerFits(m, event, answer)
    ensures PhaseFits(issued, m, Responding(Exchange(m, event, Reply(m, answer))))
  {
  }

  /** Between two places of its task a connection stays kept. */
  lemma NextPhaseIsKept(token: string, issued: seq<string>, c: Connection, phase: Phase)
    requires Kept(token, issued, c) && |c.heard| == |c.exchanges| + 1 && !c.phase.Closed?
    requires !BeforeGreeting(phase) && !phase.Welcoming? && !phase.Idle? && !phase.Closed?
    requires PhaseFits(issued, c.heard[|c.heard| - 1], phase)
    ensures Kept(token, issued, c.(phase := phase))
  {
    hide Fair, PhaseFits, IsWelcome;
  }

  lemma StepOfKeeps(s: Server, step: Label)
    requires Inv(s) && !step.Send?
    requires step.Upgrade? || step.Greet? || step.Welcome? || step.Receive? || step.Continue? || step.Respond? || step.Disconnect?
    requires step.who in s.connections && StepOf(s, step, s.connections[step.who]).Some?
    ensures Inv(StepOf(s, step, s.connections[step.who]).value)
  {
    hide Inv, Fair, PhaseFits, OriginAllowed, TokenMatches, AfterMessage, AfterRecorded, Reply;
    InvGivesKept(s, step.who);
    var c := s.connections[step.who];
    match step
    case Upgrade(who) =>
      ChangeOne(s, who, c.(phase := if c.phase.path == DEFAULT_PATH && OriginAllowed(c.phase.origin) then Greeting else Closed));
    case Greet(who, message) =>
      ChangeOne(s, who, c.(greeting := Some(message), phase := AfterGreeting(s.token, message)));
    case Welcome(who) =>
      ChangeOne(s, who, c.(phase := Idle));
    case Receive(who, message) =>
      AfterMessageFits(s.issued, message);
      FirstPhaseIsKept(s.token, s.issued, c, message);
      ChangeOne(s, who, c.(heard := c.heard + [message], phase := AfterMessage(message)));
    case Continue(who) =>
      ContinueKeeps(s, who, c);
    case Respond(who) =>
      PhaseSays(s.issued, c.heard[|c.heard| - 1], c.phase);
      ChangeOne(s, who, c.(exchanges := c.exchanges + [c.phase.exchange], phase := Idle));
    case Disconnect(who) =>
      ChangeOne(s, who, c.(phase := Closed));
  }

  lemma InvGivesKept(s: Server, who: nat)
    requires Inv(s) && who in s.connections
    ensures Kept(s.token, s.issued, s.connections[who])
  {
  }

  lemma PhaseSays(issued: seq<string>, m: Message, phase: Phase)
    requires PhaseFits(issued, m, phase) && phase.Responding?
    ensures phase.exchange.message == m && Fair(issued, phase.exchange)
  {
  }

  lemma WaitingSays(issued: seq<string>, m: Message, phase: Phase)
    requires PhaseFits(issued, m, phase)
    ensures phase.Acknowledged? ==> JobFits(issued, m, phase.report, phase.job) && IssuedTo(issued, phase.recorded.id, phase.report.url)
    ensures phase.Answered? ==> AnswerFits(m, phase.event, phase.answer)
  {
  }

  lemma ContinueKeeps(s: Server, who: nat, c: Connection)
    requires Inv(s) && who in s.connections && c == s.connections[who]
    requires StepOf(s, Continue(who), c).Some?
    ensures Inv(StepOf(s, Continue(who), c).value)
  {
    hide Inv, Fair, PhaseFits, JobFits, AnswerFits, AfterRecorded, Reply, Welcomed, InOrder;
    InvGivesKept(s, who);
    var m := c.heard[|c.heard| - 1];
    WaitingSays(s.issued, m, c.phase);
    var phase: Phase;
    if c.phase.Acknowledged? {
      phase := AfterRecorded(m, c.phase.report, c.phase.recorded, c.phase.job);
      AfterRecordedFits(s.issued, m, c.phase.report, c.phase.recorded, c.phase.job);
    } else {
      phase := Responding(Exchange(m, c.phase.event, Reply(m, c.phase.answer)));
      ReplyIsFair(s.issued, m, c.phase.event, c.phase.answer);
    }
    NextPhaseIsKept(s.token, s.issued, c, phase);
    ChangeOne(s, who, c.(phase := phase));
  }

  /** Sending puts the report or request, under a fresh ticket, at the end of its queue. */
  lemma SendKeeps(s: Server, who: nat)
    requires Inv(s) && who in s.connections && StepSend(s, who, s.connections[who]).Some?
    ensures Inv(StepSend(s, who, s.connections[who]).value)
  {
    hide WellKept, Fair, PhaseFits, JobFits, IsWelcome, InOrder, QueuesHeld;
    InvGivesKept(s, who);
    var c := s.connections[who];
    var t := StepSend(s, who, c).value;
    var m := c.heard[|c.heard| - 1];
    SentFits(s.issued, m, c.phase, t.connections[who].phase);
    NextPhaseIsKept(s.token, s.issued, c, t.connections[who].phase);
    assert t.open == s.open;
    SendHolds(s, who);
  }

  lemma SendHolds(s: Server, who: nat)
    requires QueuesHeld(s) && who in s.connections && StepSend(s, who, s.connections[who]).Some?
    requires Welcomed(s.token, s.connections[who])
    ensures QueuesHeld(StepSend(s, who, s.connections[who]).value)
  {
    hide IsWelcome, Serves;
    var t := StepSend(s, who, s.connections[who]).value;
    forall i | 0 <= i < |t.submissions| ensures SubmissionHeld(t, t.submissions[i]) {
      if i < |s.submissions| {
        assert SubmissionHeld(s, s.submissions[i]);
      }
    }
    forall i | 0 <= i < |t.requests| ensures RequestHeld(t, t.requests[i].ticket, t.requests[i].owner, t.requests[i].request) {
      if i < |s.requests| {
        assert RequestHeld(s, s.requests[i].ticket, s.requests[i].owner, s.requests[i].request);
      }
    }
    forall i | 0 <= i < |s.events| ensures RequestHeld(t, s.events[i].ticket, s.events[i].owner, s.events[i].request) {
      assert RequestHeld(s, s.events[i].ticket, s.events[i].owner, s.events[i].request);
    }
  }

  lemma SentFits(issued: seq<string>, m: Message, phase: Phase, sent: Phase)
    requires PhaseFits(issued, m, phase)
    requires || (phase.Submitting? && sent.Submitted? && sent.report == phase.report && sent.job == phase.job)
             || (phase.Requesting? && sent.Requested? && sent.request == phase.request)
    ensures PhaseFits(issued, m, sent)
  {
  }

  // ---- Steps of the listener and the daemon ----

  /** Items still in their queues stay held as long as the connections there were are still the same. */
  lemma QueuesStay(s: Server, t: Server)
    requires QueuesHeld(s) && t.token == s.token && t.tickets == s.tickets && s.issued <= t.issued
    requires forall who :: who in s.connections ==> who in t.connections && t.connections[who] == s.connections[who]
    requires |t.submissions| <= |s.submissions| && |t.requests| <= |s.requests|
    requires forall e :: e in t.submissions ==> e in s.submissions
    requires forall e :: e in t.requests ==> e in s.requests
    requires forall e :: e in t.events ==> e in s.events
    ensures QueuesHeld(t)
  {
    hide Welcomed, Serves;
    forall i | 0 <= i < |t.submissions| ensures SubmissionHeld(t, t.submissions[i]) {
      assert t.submissions[i] in s.submissions;
    }
    forall i | 0 <= i < |t.requests| ensures RequestHeld(t, t.requests[i].ticket, t.requests[i].owner, t.requests[i].request) {
      assert t.requests[i] in s.requests;
    }
    forall i | 0 <= i < |t.events|
      ensures RequestHeld(t, t.events[i].ticket, t.events[i].owner, t.events[i].request)
      ensures Serves(t.issued, t.events[i].request, t.events[i].event)
    {
      assert t.events[i] in s.events;
      ServesGrows(s.issued, t.issued, t.events[i].request, t.events[i].event);
    }
  }

  lemma ServesGrows(a: seq<string>, b: seq<string>, request: Request, event: Event)
    requires a <= b && Serves(a, request, event)
    ensures Serves(b, request, event)
  {
  }

  lemma RecordedIsIssued(s: Server, report: Report)
    requires WellKept(s.catalog, DEFAULT_CAPACITY, s.issued)
    requires |Issue(s.catalog, s.issued, Op.Record(report))| <= NUMBERS
    ensures IssuedTo(Issue(s.catalog, s.issued, Op.Record(report)),
                     AfterRecord(s.catalog, DEFAULT_CAPACITY, report).1.id, report.url)
  {
  }

  /** The catalog and the numbers after a report is taken off the queue, before it is acknowledged. */
  lemma RecordingKeeps(s: Server, t: Server)
    requires Inv(s) && s.submissions != []
    requires var op := Op.Record(s.submissions[0].report);
             && |Issue(s.catalog, s.issued, op)| <= NUMBERS
             && t == s.(catalog := Apply(s.catalog, DEFAULT_CAPACITY, op), issued := Issue(s.catalog, s.issued, op),
                        reporters := t.reporters, submissions := s.submissions[1..])
    ensures Inv(t)
  {
    hide WellKept, Kept, Welcomed, Serves, Apply, Issue;
    var op := Op.Record(s.submissions[0].report);
    OperationKeeps(s.catalog, DEFAULT_CAPACITY, s.issued, op);
    IssueGrows(s.catalog, s.issued, op);
    forall who | who in t.connections ensures Kept(t.token, t.issued, t.connections[who]) {
      KeptGrows(s.token, s.issued, t.issued, s.connections[who]);
    }
    QueuesStay(s, t);
  }

  lemma NoteKeeps(s: Server)
    requires Inv(s) && StepNote(s).Some? && |StepNote(s).value.issued| <= NUMBERS
    ensures Inv(StepNote(s).value)
  {
    hide Inv, Kept, Issue, AfterRecord, WellKept;
    var e := s.submissions[0];
    var op := Op.Record(e.report);
    var recorded := AfterRecord(s.catalog, DEFAULT_CAPACITY, e.report).1;
    var t := s.(catalog := Apply(s.catalog, DEFAULT_CAPACITY, op), issued := Issue(s.catalog, s.issued, op),
                reporters := if recorded.duplicate then s.reporters else s.reporters + [e.owner],
                submissions := s.submissions[1..]);
    InvGivesHeld(s);
    RecordingKeeps(s, t);
    RecordedIsIssued(s, e.report);
    AcknowledgeKeeps(t, e.ticket, e.owner, e.report, recorded);
  }

  lemma InvGivesHeld(s: Server)
    requires Inv(s)
    ensures WellKept(s.catalog, DEFAULT_CAPACITY, s.issued)
    ensures s.submissions != [] ==> SubmissionHeld(s, s.submissions[0])
    ensures s.requests != [] ==> RequestHeld(s, s.requests[0].ticket, s.requests[0].owner, s.requests[0].request)
    ensures forall i :: 0 <= i < |s.events| ==>
                          && RequestHeld(s, s.events[i].ticket, s.events[i].owner, s.events[i].request)
                          && Serves(s.issued, s.events[i].request, s.events[i].event)
  {
  }

  lemma AcknowledgeKeeps(t: Server, ticket: nat, owner: nat, report: Report, recorded: Recorded)
    requires Inv(t) && SubmissionHeld(t, Submission(ticket, owner, report)) && IssuedTo(t.issued, recorded.id, report.url)
    ensures Inv(Acknowledge(t, ticket, owner, recorded))
  {
    hide Inv, Fair, PhaseFits, IssuedTo, InOrder, IsWelcome;
    var c := t.connections[owner];
    if c.phase.Submitted? && c.phase.ticket == ticket {
      InvGivesKept(t, owner);
      var next := Acknowledged(c.phase.report, recorded, c.phase.job);
      AcknowledgedFits(t.issued, c.heard[|c.heard| - 1], c.phase, recorded);
      NextPhaseIsKept(t.token, t.issued, c, next);
      ChangeOne(t, owner, c.(phase := next));
    }
  }

  lemma AcknowledgedFits(issued: seq<string>, m: Message, phase: Phase, recorded: Recorded)
    requires PhaseFits(issued, m, phase) && phase.Submitted? && IssuedTo(issued, recorded.id, phase.report.url)
    ensures PhaseFits(issued, m, Acknowledged(phase.report, recorded, phase.job))
  {
  }

  lemma DeliverKeeps(t: Server, ticket: nat, owner: nat, request: Request, event: Option<Event>, answer: Answer)
    requires Inv(t) && RequestHeld(t, ticket, owner, request)
    requires event.Some? ==> Serves(t.issued, request, event.value) && CanAnswer(event.value, answer)
    requires event.None? ==> answer == Refuse(NoCapture) || answer == Refuse(CaptureUnavailable)
    ensures Inv(Deliver(t, ticket, owner, event, answer))
  {
    hide Inv, Fair, PhaseFits, InOrder, IsWelcome, Serves, CanAnswer;
    var c := t.connections[owner];
    if c.phase.Requested? && c.phase.ticket == ticket {
      InvGivesKept(t, owner);
      AnsweredFits(t.issued, c.heard[|c.heard| - 1], c.phase, event, answer);
      NextPhaseIsKept(t.token, t.issued, c, Answered(event, answer));
      ChangeOne(t, owner, c.(phase := Answered(event, answer)));
    }
  }

  lemma AnsweredFits(issued: seq<string>, m: Message, phase: Phase, event: Option<Event>, answer: Answer)
    requires PhaseFits(issued, m, phase) && phase.Requested?
    requires event.Some? ==> Serves(issued, phase.request, event.value) && CanAnswer(event.value, answer)
    requires event.None? ==> answer == Refuse(NoCapture) || answer == Refuse(CaptureUnavailable)
    ensures PhaseFits(issued, m, Answered(event, answer))
  {
  }

  /** The listener finds what a request is about, or nothing. */
  lemma EventServes(s: Server, request: Request)
    requires WellKept(s.catalog, DEFAULT_CAPACITY, s.issued) && EventFor(s.catalog, request).Some?
    ensures Serves(s.issued, request, EventFor(s.catalog, request).value)
  {
    hide SamePage, Best, NewestFirst, DistinctUrls;
    if !request.StatusOf? {
      BestIsBest(s.catalog.candidates, request.page);
    }
  }

  lemma ServeKeeps(s: Server, daemonListens: bool)
    requires Inv(s) && StepServe(s, daemonListens).Some?
    ensures Inv(StepServe(s, daemonListens).value)
  {
    hide Inv, WellKept, EventFor, Serves;
    var next := s.requests[0];
    var taken := s.(requests := s.requests[1..]);
    InvGivesHeld(s);
    QueuesShrink(s, taken);
    match EventFor(s.catalog, next.request)
    case None => DeliverKeeps(taken, next.ticket, next.owner, next.request, None, Refuse(NoCapture));
    case Some(event) =>
      EventServes(s, next.request);
      if daemonListens {
        EventQueued(taken, Forwarded(next.ticket, next.owner, next.request, event));
      } else {
        DeliverKeeps(taken, next.ticket, next.owner, next.request, None, Refuse(CaptureUnavailable));
      }
  }

  /** Taking an item off a queue leaves the others held. */
  lemma QueuesShrink(s: Server, t: Server)
    requires Inv(s)
    requires t == s.(requests := t.requests, events := t.events)
    requires |t.requests| <= |s.requests|
    requires forall e :: e in t.requests ==> e in s.requests
    requires forall e :: e in t.events ==> e in s.events
    ensures Inv(t)
  {
    hide WellKept, Kept, QueuesHeld;
    QueuesStay(s, t);
  }

  lemma EventQueued(t: Server, e: Forwarded)
    requires Inv(t) && RequestHeld(t, e.ticket, e.owner, e.request) && Serves(t.issued, e.request, e.event)
    ensures Inv(t.(events := t.events + [e]))
  {
    hide WellKept, Kept, Welcomed, Serves;
    var u := t.(events := t.events + [e]);
    forall i | 0 <= i < |t.submissions| ensures SubmissionHeld(u, t.submissions[i]) {
      assert SubmissionHeld(t, t.submissions[i]);
    }
  }

  lemma DecideKeeps(s: Server, k: nat, answer: Answer)
    requires Inv(s) && StepDecide(s, k, answer).Some?
    ensures Inv(StepDecide(s, k, answer).value)
  {
    hide Inv, Serves, CanAnswer, RequestHeld;
    var e := s.events[k];
    var taken := s.(events := s.events[..k] + s.events[k + 1..]);
    InvGivesHeld(s);
    QueuesShrink(s, taken);
    HeldStill(s, taken, e);
    DeliverKeeps(taken, e.ticket, e.owner, e.request, Some(e.event), answer);
  }

  lemma HeldStill(s: Server, t: Server, e: Forwarded)
    requires RequestHeld(s, e.ticket, e.owner, e.request)
    requires t == s.(requests := t.requests, events := t.events)
    ensures RequestHeld(t, e.ticket, e.owner, e.request)
  {
  }

  // ---- Every run ----

  lemma ConnectKeeps(s: Server, who: nat, path: string, origin: Option<string>)
    requires Inv(s) && Step(s, Connect(who, path, origin)).Some?
    ensures Inv(Step(s, Connect(who, path, origin)).value)
  {
    hide WellKept, Kept, QueuesHeld;
    NewConnectionIsKept(s.token, s.issued, Connection(Upgrading(path, origin), None, [], []));
    QueuesStay(s, Step(s, Connect(who, path, origin)).value);
  }

  lemma NewConnectionIsKept(token: string, issued: seq<string>, c: Connection)
    requires c.phase.Upgrading? && c.greeting.None? && c.heard == [] && c.exchanges == []
    ensures Kept(token, issued, c)
  {
  }

  /** The desktop may forget candidates; numbers already given stay given. */
  lemma ForgettingKeeps(s: Server, op: Op)
    requires Inv(s) && !op.Record? && |s.issued| <= NUMBERS
    ensures Inv(s.(catalog := Apply(s.catalog, DEFAULT_CAPACITY, op)))
  {
    hide WellKept, Kept, QueuesHeld, Apply;
    OperationKeeps(s.catalog, DEFAULT_CAPACITY, s.issued, op);
    QueuesStay(s, s.(catalog := Apply(s.catalog, DEFAULT_CAPACITY, op)));
  }

  lemma StepKeepsInv(s: Server, step: Label)
    requires Inv(s) && Step(s, step).Some? && |Step(s, step).value.issued| <= NUMBERS
    ensures Inv(Step(s, step).value)
  {
    hide Inv, StepOf, StepNote, StepServe, StepDecide;
    match step
    case Connect(who, path, origin) => ConnectKeeps(s, who, path, origin);
    case Note => NoteKeeps(s);
    case Serve(daemonListens) => ServeKeeps(s, daemonListens);
    case Decide(k, answer) => DecideKeeps(s, k, answer);
    case Remove(id) => ForgettingKeeps(s, Op.Remove(id));
    case Clear => ForgettingKeeps(s, Op.Clear);
    case Send(who) => SendIsStep(s, who); SendKeeps(s, who);
    case _ => StepOfKeeps(s, step);
  }

  lemma SendIsStep(s: Server, who: nat)
    requires who in s.connections
    ensures StepOf(s, Send(who), s.connections[who]) == StepSend(s, who, s.connections[who])
  {
  }

  lemma NumbersStay(s: Server, step: Label)
    requires Step(s, step).Some?
    ensures s.issued <= Step(s, step).value.issued
  {
  }

  /** As long as there are numbers to give, every state any interleaving leads to keeps the invariant. */
  lemma {:induction false} EveryReachableStateIsSafe(token: string, steps: seq<Label>, n: nat)
    requires n <= |steps| && Reached(token, steps, n).Some? && |Reached(token, steps, n).value.issued| <= NUMBERS
    ensures Inv(Reached(token, steps, n).value)
  {
    hide Step, Inv;
    if n > 0 {
      var before := Reached(token, steps, n - 1).value;
      NumbersStay(before, steps[n - 1]);
      EveryReachableStateIsSafe(token, steps, n - 1);
      StepKeepsInv(before, steps[n - 1]);
    } else {
      StartIsSafe(token);
    }
  }

  lemma StartIsSafe(token: string)
    ensures Inv(Start(token))
  {
  }

  // ---- What that means ----

  // ---- Where candidates come from ----

  /** The message reports that URL. */
  predicate Tells(m: Message, url: string) {
    match m
    case Candidate(Ok(r)) => r.url == url
    case DownloadBrowser(Ok(r), _) => r.url == url
    case Source(Ok(reports)) => exists i :: 0 <= i < |reports| && reports[i].url == url
    case _ => false
  }

  predicate Told(heard: seq<Message>, url: string) {
    exists i :: 0 <= i < |heard| && Tells(heard[i], url)
  }

  /** The connection greeted with the token and has reported that URL. */
  ghost predicate Reporter(s: Server, who: nat, url: string) {
    who in s.connections && Welcomed(s.token, s.connections[who]) && Told(s.connections[who].heard, url)
  }

  /** Whatever waits for the catalog, and whatever was ever given a number, has such a reporter. */
  ghost predicate OriginsKnown(s: Server) {
    && |s.reporters| == |s.issued|
    && (forall id :: 0 <= id < |s.issued| ==> Reporter(s, s.reporters[id], s.issued[id]))
    && (forall i :: 0 <= i < |s.submissions| ==> Reporter(s, s.submissions[i].owner, s.submissions[i].report.url))
  }

  /** A connection that goes on keeps its greeting and what it has said. */
  ghost predicate GoesOn(token: string, before: Connection, after: Connection) {
    (Welcomed(token, before) ==> Welcomed(token, after)) && before.heard <= after.heard
  }

  lemma ReporterStays(s: Server, t: Server, who: nat, url: string)
    requires Reporter(s, who, url) && t.token == s.token && who in t.connections
    requires GoesOn(s.token, s.connections[who], t.connections[who])
    ensures Reporter(t, who, url)
  {
    hide Tells, IsWelcome;
    var i :| 0 <= i < |s.connections[who].heard| && Tells(s.connections[who].heard[i], url);
    assert t.connections[who].heard[i] == s.connections[who].heard[i];
  }

  lemma OriginsStay(s: Server, t: Server)
    requires OriginsKnown(s) && t.token == s.token && t.issued == s.issued && t.reporters == s.reporters
    requires forall who :: who in s.connections ==>
                             who in t.connections && GoesOn(s.token, s.connections[who], t.connections[who])
    requires forall e :: e in t.submissions ==> e in s.submissions
    ensures OriginsKnown(t)
  {
    hide Reporter, GoesOn;
    forall id | 0 <= id < |t.issued| ensures Reporter(t, t.reporters[id], t.issued[id]) {
      assert Reporter(s, s.reporters[id], s.issued[id]);
      ReporterIsThere(s, s.reporters[id], s.issued[id]);
      ReporterStays(s, t, s.reporters[id], s.issued[id]);
    }
    forall i | 0 <= i < |t.submissions| ensures Reporter(t, t.submissions[i].owner, t.submissions[i].report.url) {
      var e := t.submissions[i];
      assert e in s.submissions;
      ReporterIsThere(s, e.owner, e.report.url);
      ReporterStays(s, t, e.owner, e.report.url);
    }
  }

  lemma ReporterIsThere(s: Server, who: nat, url: string)
    requires Reporter(s, who, url)
    ensures who in s.connections
  {
  }

  lemma JobTells(issued: seq<string>, m: Message, report: Report, job: Job)
    requires JobFits(issued, m, report, job)
    ensures Tells(m, report.url)
  {
  }

  /** Only what the connection's own last message reports is put in the queue. */
  lemma SendKeepsOrigins(s: Server, who: nat)
    requires Inv(s) && OriginsKnown(s) && who in s.connections && StepSend(s, who, s.connections[who]).Some?
    ensures OriginsKnown(StepSend(s, who, s.connections[who]).value)
  {
    hide Inv, Reporter, JobFits, Tells, IsWelcome;
    var c, t := s.connections[who], StepSend(s, who, s.connections[who]).value;
    OriginsStay(s, t.(submissions := s.submissions));
    InvGivesKept(s, who);
    if c.phase.Submitting? {
      var last := |c.heard| - 1;
      SubmittingFits(s.issued, c.heard[last], c.phase);
      JobTells(s.issued, c.heard[last], c.phase.report, c.phase.job);
      assert Tells(t.connections[who].heard[last], c.phase.report.url);
      assert Reporter(t, who, c.phase.report.url) by { ReporterFromParts(t, who, c.phase.report.url); }
      QueuedHasReporter(s, t, Submission(s.tickets, who, c.phase.report));
    } else {
      SameReporters(t.(submissions := s.submissions), t);
    }
  }

  lemma SubmittingFits(issued: seq<string>, m: Message, phase: Phase)
    requires PhaseFits(issued, m, phase) && phase.Submitting?
    ensures JobFits(issued, m, phase.report, phase.job)
  {
  }

  lemma ReporterFromParts(s: Server, who: nat, url: string)
    requires who in s.connections && Welcomed(s.token, s.connections[who]) && Told(s.connections[who].heard, url)
    ensures Reporter(s, who, url)
  {
  }

  /** Who reported what depends on nothing but the connections. */
  lemma SameReporters(s: Server, t: Server)
    requires OriginsKnown(s) && t.token == s.token && t.connections == s.connections
    requires t.issued == s.issued && t.reporters == s.reporters && t.submissions == s.submissions
    ensures OriginsKnown(t)
  {
    hide Welcomed, Told;
    forall who, url ensures Reporter(t, who, url) == Reporter(s, who, url) {}
  }

  lemma QueuedHasReporter(s: Server, t: Server, e: Submission)
    requires OriginsKnown(t.(submissions := s.submissions)) && t.submissions == s.submissions + [e]
    requires Reporter(t, e.owner, e.report.url)
    ensures OriginsKnown(t)
  {
    hide Welcomed, Told;
    var u := t.(submissions := s.submissions);
    forall who, url ensures Reporter(t, who, url) == Reporter(u, who, url) {}
  }

  /** A new number is given to the report taken off the queue, whose reporter is known. */
  lemma NoteKeepsOrigins(s: Server)
    requires OriginsKnown(s) && StepNote(s).Some?
    ensures OriginsKnown(StepNote(s).value)
  {
    hide Told, Welcomed, AfterRecord;
    var e := s.submissions[0];
    var (catalog, recorded) := AfterRecord(s.catalog, DEFAULT_CAPACITY, e.report);
    var t := s.(catalog := catalog, issued := Issue(s.catalog, s.issued, Op.Record(e.report)),
                reporters := if recorded.duplicate then s.reporters else s.reporters + [e.owner],
                submissions := s.submissions[1..]);
    NewIsIssued(s, e.report);
    assert Reporter(s, e.owner, e.report.url);
    forall who, url ensures Reporter(t, who, url) == Reporter(s, who, url) {}
    assert OriginsKnown(t);
    hide Reporter, GoesOn;
    var done := Acknowledge(t, e.ticket, e.owner, recorded);
    forall who | who in t.connections ensures GoesOn(t.token, t.connections[who], done.connections[who]) {
      PhaseOnly(t.token, t.connections[who]);
    }
    OriginsStay(t, done);
  }

  lemma NewIsIssued(s: Server, report: Report)
    ensures Issue(s.catalog, s.issued, Op.Record(report))
            == if AfterRecord(s.catalog, DEFAULT_CAPACITY, report).1.duplicate then s.issued else s.issued + [report.url]
  {
  }

  lemma PhaseOnly(token: string, c: Connection)
    ensures forall phase :: GoesOn(token, c, c.(phase := phase))
    ensures GoesOn(token, c, c)
  {
  }

  lemma DeliverKeepsOrigins(s: Server, ticket: nat, owner: nat, event: Option<Event>, answer: Answer)
    requires OriginsKnown(s)
    ensures OriginsKnown(Deliver(s, ticket, owner, event, answer))
  {
    hide Reporter, GoesOn, OriginsKnown;
    forall who | who in s.connections
      ensures GoesOn(s.token, s.connections[who], Deliver(s, ticket, owner, event, answer).connections[who])
    {
      PhaseOnly(s.token, s.connections[who]);
    }
    OriginsStay(s, Deliver(s, ticket, owner, event, answer));
  }

  /** What a connection does on its own never takes back a greeting or a message. */
  lemma StepOfGoesOn(s: Server, step: Label)
    requires !step.Send? && !step.Connect? && !step.Note? && !step.Serve? && !step.Decide? && !step.Remove? && !step.Clear?
    requires Inv(s) && step.who in s.connections && StepOf(s, step, s.connections[step.who]).Some?
    ensures var c, t := s.connections[step.who], StepOf(s, step, s.connections[step.who]).value;
            && t == WithConnection(s, step.who, t.connections[step.who])
            && GoesOn(s.token, c, t.connections[step.who])
  {
    hide Inv, IsWelcome, AfterMessage, AfterGreeting, AfterRecorded, Reply, OriginAllowed, PhaseFits, InOrder;
    InvGivesKept(s, step.who);
  }

  lemma OneGoesOn(s: Server, who: nat, c: Connection)
    requires OriginsKnown(s) && who in s.connections && GoesOn(s.token, s.connections[who], c)
    ensures OriginsKnown(WithConnection(s, who, c))
  {
    hide Reporter, GoesOn, OriginsKnown;
    forall other | other in s.connections
      ensures GoesOn(s.token, s.connections[other], WithConnection(s, who, c).connections[other])
    {
      PhaseOnly(s.token, s.connections[other]);
    }
    OriginsStay(s, WithConnection(s, who, c));
  }

  lemma SameConnections(s: Server, t: Server)
    requires OriginsKnown(s) && t.token == s.token && t.issued == s.issued && t.reporters == s.reporters
    requires t.submissions == s.submissions
    requires forall who :: who in s.connections ==> who in t.connections && t.connections[who] == s.connections[who]
    ensures OriginsKnown(t)
  {
    hide Reporter, GoesOn, OriginsKnown;
    forall who | who in s.connections ensures GoesOn(s.token, s.connections[who], t.connections[who]) {
      PhaseOnly(s.token, s.connections[who]);
    }
    OriginsStay(s, t);
  }

  lemma ServeKeepsOrigins(s: Server, daemonListens: bool)
    requires OriginsKnown(s) && StepServe(s, daemonListens).Some?
    ensures OriginsKnown(StepServe(s, daemonListens).value)
  {
    hide OriginsKnown, EventFor, Deliver;
    var next, taken := s.requests[0], s.(requests := s.requests[1..]);
    SameConnections(s, taken);
    match EventFor(s.catalog, next.request)
    case None => DeliverKeepsOrigins(taken, next.ticket, next.owner, None, Refuse(NoCapture));
    case Some(event) =>
      if daemonListens {
        SameConnections(taken, StepServe(s, daemonListens).value);
      } else {
        DeliverKeepsOrigins(taken, next.ticket, next.owner, None, Refuse(CaptureUnavailable));
      }
  }

  lemma DecideKeepsOrigins(s: Server, k: nat, answer: Answer)
    requires OriginsKnown(s) && StepDecide(s, k, answer).Some?
    ensures OriginsKnown(StepDecide(s, k, answer).value)
  {
    hide OriginsKnown, Deliver, CanAnswer;
    var e, taken := s.events[k], s.(events := s.events[..k] + s.events[k + 1..]);
    SameConnections(s, taken);
    DeliverKeepsOrigins(taken, e.ticket, e.owner, Some(e.event), answer);
  }

  lemma StepKeepsOrigins(s: Server, step: Label)
    requires Inv(s) && OriginsKnown(s) && Step(s, step).Some?
    ensures OriginsKnown(Step(s, step).value)
  {
    hide Inv, OriginsKnown, StepNote, StepDecide, StepOf, EventFor, Without, GoesOn, Deliver;
    match step
    case Note => NoteKeepsOrigins(s);
    case Serve(daemonListens) => ServeKeepsOrigins(s, daemonListens);
    case Decide(k, answer) => DecideKeepsOrigins(s, k, answer);
    case Send(who) => SendIsStep(s, who); SendKeepsOrigins(s, who);
    case Connect(_, _, _) => SameConnections(s, Step(s, step).value);
    case Remove(id) => SameConnections(s, Step(s, step).value);
    case Clear => SameConnections(s, Step(s, step).value);
    case _ =>
      StepOfGoesOn(s, step);
      OneGoesOn(s, step.who, StepOf(s, step, s.connections[step.who]).value.connections[step.who]);
  }

  lemma {:induction false} EveryOriginIsKnown(token: string, steps: seq<Label>, n: nat)
    requires n <= |steps| && Reached(token, steps, n).Some? && |Reached(token, steps, n).value.issued| <= NUMBERS
    ensures OriginsKnown(Reached(token, steps, n).value)
  {
    hide Step, Inv, OriginsKnown;
    if n > 0 {
      var before := Reached(token, steps, n - 1).value;
      NumbersStay(before, steps[n - 1]);
      EveryReachableStateIsSafe(token, steps, n - 1);
      EveryOriginIsKnown(token, steps, n - 1);
      StepKeepsOrigins(before, steps[n - 1]);
    } else {
      NothingReported(token);
    }
  }

  lemma NothingReported(token: string)
    ensures OriginsKnown(Start(token))
  {
  }

  lemma ListedIsReported(s: Server, c: Catalogs.Candidate)
    requires WellKept(s.catalog, DEFAULT_CAPACITY, s.issued) && OriginsKnown(s) && c in s.catalog.candidates
    ensures c.id < |s.reporters| && Reporter(s, s.reporters[c.id], c.report.url)
  {
    hide Reporter;
  }

  /**
   No candidate is listed, no report waits for the catalog and no request was passed on but from a connection that
   greeted with the token; and what is listed or waits is what that connection itself reported.
   */
  lemma GreetingGatesEverything(token: string, steps: seq<Label>)
    requires Reached(token, steps, |steps|).Some? && |Reached(token, steps, |steps|).value.issued| <= NUMBERS
    ensures var s := Reached(token, steps, |steps|).value;
            && (forall c :: c in s.catalog.candidates ==>
                              c.id < |s.reporters| && Reporter(s, s.reporters[c.id], c.report.url))
            && (forall e :: e in s.submissions ==> Reporter(s, e.owner, e.report.url))
            && (forall e :: e in s.requests ==> e.owner in s.connections && Welcomed(s.token, s.connections[e.owner]))
            && (forall e :: e in s.events ==> e.owner in s.connections && Welcomed(s.token, s.connections[e.owner]))
            && |s.open| <= MAX_CONNECTIONS
  {
    hide Reached, WellKept, Kept, Welcomed, Serves, Reporter;
    EveryReachableStateIsSafe(token, steps, |steps|);
    EveryOriginIsKnown(token, steps, |steps|);
    var s := Reached(token, steps, |steps|).value;
    forall c | c in s.catalog.candidates ensures c.id < |s.reporters| && Reporter(s, s.reporters[c.id], c.report.url) {
      ListedIsReported(s, c);
    }
  }

  /** Each message gets one fair response, in order: the connection is never more than one behind. */
  lemma OneFairResponseEach(token: string, steps: seq<Label>, who: nat)
    requires Reached(token, steps, |steps|).Some? && |Reached(token, steps, |steps|).value.issued| <= NUMBERS
    requires who in Reached(token, steps, |steps|).value.connections
    ensures var s := Reached(token, steps, |steps|).value;
            var c := s.connections[who];
            && InOrder(s.issued, c)
            && (c.phase.Idle? ==> |c.exchanges| == |c.heard|)
            && (c.heard != [] ==> Welcomed(s.token, c))
  {
    hide Reached, Inv, InOrder, Welcomed, PhaseFits;
    EveryReachableStateIsSafe(token, steps, |steps|);
    InvGivesKept(Reached(token, steps, |steps|).value, who);
  }

  /** A download that names a capture is queued only for that capture, and one that reports a URL only for that URL. */
  lemma NamedCaptureIsServed(token: string, steps: seq<Label>, who: nat, i: nat)
    requires Reached(token, steps, |steps|).Some? && |Reached(token, steps, |steps|).value.issued| <= NUMBERS
    requires who in Reached(token, steps, |steps|).value.connections
    requires i < |Reached(token, steps, |steps|).value.connections[who].exchanges|
    ensures var x := Reached(token, steps, |steps|).value.connections[who].exchanges[i];
            && (x.message.DownloadPage? && x.message.captureId.Some? && x.response.Queued? ==>
                  && x.event.Some? && x.event.value.DownloadRequested?
                  && x.event.value.candidate.id == x.message.captureId.value && x.event.value.choice == x.message.choice)
            && (x.message.DownloadBrowser? && x.response.Queued? ==>
                  && x.event.Some? && x.event.value.DownloadRequested? && x.message.browser.Ok?
                  && x.event.value.candidate.report.url == x.message.browser.value.url)
  {
    hide Reached, SamePage, Welcomed, Numbered;
    OneFairResponseEach(token, steps, who);
    var s := Reached(token, steps, |steps|).value;
    assert Fair(s.issued, s.connections[who].exchanges[i]);
  }
}

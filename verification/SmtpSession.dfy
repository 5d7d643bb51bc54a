/** What a session of smtpclient.cpp goes through before it is ready or authenticated,
    and the invariants of Smtp.dfy over every run.
  */
module SmtpSession {
  import opened Smtp

  /** What the server and the socket have to have done before the connection is ready:
      on a TLS connection, section 4 of RFC 3207 on top of the greeting. */
  function Opened(connectionType: ConnectionType): seq<Event> {
    [Got(ConnectedState, 220), Ehlo, Got(EhloState, 250)] +
    if connectionType == TlsConnection then
      [StartTls, Got(Tls0StartTls, 220), Secured, Ehlo, Got(Tls2Ehlo, 250)]
    else []
  }

  /** Section 4 of RFC 4954. */
  function PlainLogin(): seq<Event> {
    [PlainCredentials, Got(AuthPlain0, 235)]
  }

  function StepwiseLogin(): seq<Event> {
    [LoginCommand, Got(AuthLogin0, 334), LoginUser, Got(AuthLogin1User, 334), LoginPass, Got(AuthLogin2Pass, 235)]
  }

  /** How much of a plan occurs in a log, in the plan's order. */
  function Progress(log: seq<Event>, plan: seq<Event>): (k: nat)
    ensures k <= |plan|
  {
    if log == [] then 0
    else
      var k := Progress(log[..|log| - 1], plan);
      if k < |plan| && plan[k] == log[|log| - 1] then k + 1 else k
  }

  predicate Done(log: seq<Event>, plan: seq<Event>) {
    Progress(log, plan) == |plan|
  }

  /** Commands that must not go over a connection that is not ready. */
  predicate NeedsReady(e: Event) {
    match e
    case Rset => true
    case PlainCredentials => true
    case LoginCommand => true
    case LoginUser => true
    case LoginPass => true
    case MailFrom(_) => true
    case RcptTo(_) => true
    case Data => true
    case Body(_) => true
    case _ => false
  }

  predicate Guarded(log: seq<Event>, plan: seq<Event>) {
    log == [] ||
    (Guarded(log[..|log| - 1], plan) && (NeedsReady(log[|log| - 1]) ==> Done(log[..|log| - 1], plan)))
  }

  /** How far a state says the opening has got. */
  function OpenedBy(s: ClientState, connectionType: ConnectionType): nat {
    match s
    case UnconnectedState => 0
    case ConnectingState => 0
    case ConnectedState => 0
    case DisconnectingState => 0
    case QuittingState => 0
    case EhloState => 2
    case Tls0StartTls => 4
    case Tls1Encrypt => 5
    case Tls2Ehlo => 7
    case _ => |Opened(connectionType)|
  }

  predicate LinkInvariant(c: Client) {
    var plan := Opened(c.connectionType);
    && Guarded(c.session, plan)
    && (c.ready ==> Done(c.session, plan))
    && Progress(c.session, plan) >= OpenedBy(c.state, c.connectionType)
  }

  function PlainBy(s: ClientState): nat {
    if s == AuthPlain0 then 1 else 0
  }

  function StepsBy(s: ClientState): nat {
    match s
    case AuthLogin0 => 1
    case AuthLogin1User => 3
    case AuthLogin2Pass => 5
    case _ => 0
  }

  predicate LoggedIn(log: seq<Event>) {
    Done(log, PlainLogin()) || Done(log, StepwiseLogin())
  }

  predicate AuthInvariant(c: Client) {
    && (c.authenticated ==> LoggedIn(c.session))
    && Progress(c.session, PlainLogin()) >= PlainBy(c.state)
    && Progress(c.session, StepwiseLogin()) >= StepsBy(c.state)
  }

  // ---- Plans only move forward ----

  lemma Grew(log: seq<Event>, e: Event, plan: seq<Event>)
    ensures Progress(log + [e], plan) ==
      if Progress(log, plan) < |plan| && plan[Progress(log, plan)] == e then Progress(log, plan) + 1
      else Progress(log, plan)
    ensures Guarded(log + [e], plan) <==> (Guarded(log, plan) && (NeedsReady(e) ==> Done(log, plan)))
  {
    hide NeedsReady;
    assert (log + [e])[..|log|] == log;
  }

  /** Saying or hearing item n of a plan after the first n takes the plan past it. */
  lemma {:induction false} Advance(log: seq<Event>, e: Event, plan: seq<Event>, n: nat)
    requires Progress(log, plan) >= n
    ensures Progress(log + [e], plan) >= n
    ensures n < |plan| && plan[n] == e ==> Progress(log + [e], plan) >= n + 1
  {
    hide Progress, NeedsReady, Guarded;
    Grew(log, e, plan);
  }

  /** How far the opening has to have got before s is entered. */
  function Needed(s: ClientState, connectionType: ConnectionType): nat {
    match s
    case UnconnectedState => 0
    case ConnectingState => 0
    case ConnectedState => 0
    case DisconnectingState => 0
    case QuittingState => 0
    case EhloState => 1
    case TlsState => 3
    case Tls0StartTls => 3
    case Tls1Encrypt => 5
    case Tls2Ehlo => 6
    case _ => |Opened(connectionType)|
  }

  predicate MayEnter(c: Client, s: ClientState) {
    var plan := Opened(c.connectionType);
    && Guarded(c.session, plan)
    && (c.ready ==> Done(c.session, plan))
    && Progress(c.session, plan) >= Needed(s, c.connectionType)
    && (s == TlsState || s == Tls0StartTls ==> c.connectionType == TlsConnection)
  }

  /** From n items of a plan, what is said brings it to at least `upto`, out of turn nothing. */
  predicate Leads(said: seq<Event>, n: nat, upto: nat, plan: seq<Event>) {
    || (said == [] && upto <= n)
    || (|said| == 1 && upto <= n && (NeedsReady(said[0]) ==> n == |plan|))
    || (|said| == 1 && upto == n + 1 <= |plan| && plan[n] == said[0] && !NeedsReady(said[0]))
  }

  /** The opening each state relies on is what its own words add to what entering needs. */
  lemma {:induction false} SaysNext(s: ClientState, auth: AuthMethod, ct: ConnectionType, email: Email)
    requires s != Mail1RcptInit && s != Mail2Rcpt
    requires s == TlsState || s == Tls0StartTls ==> ct == TlsConnection
    requires Needed(s, ct) <= |Opened(ct)|
    ensures Leads(Said(Rest(s, auth), ct == SslConnection, email), Needed(s, ct), OpenedBy(Rest(s, auth), ct), Opened(ct))
  {
    hide Said, OpenedBy, Opened, Leads;
    NeededAtRest(s, auth, ct);
    RestSays(Rest(s, auth), ct, email);
  }

  lemma NeededAtRest(s: ClientState, auth: AuthMethod, ct: ConnectionType)
    requires s != Mail1RcptInit && s != Mail2Rcpt
    ensures Needed(s, ct) == Needed(Rest(s, auth), ct)
    ensures RestState(Rest(s, auth)) && (Rest(s, auth) == Tls0StartTls ==> s == TlsState || s == Tls0StartTls)
  {
    hide Opened;
  }

  predicate RestState(s: ClientState) {
    Rest(s, AuthPlain) == s && s != Mail1RcptInit && s != Mail2Rcpt
  }

  lemma RestSays(s: ClientState, ct: ConnectionType, email: Email)
    requires RestState(s) && (s == Tls0StartTls ==> ct == TlsConnection)
    requires Needed(s, ct) <= |Opened(ct)|
    ensures Leads(Said(s, ct == SslConnection, email), Needed(s, ct), OpenedBy(s, ct), Opened(ct))
  {
  }

  lemma {:induction false} Led(log: seq<Event>, said: seq<Event>, n: nat, upto: nat, plan: seq<Event>)
    requires Guarded(log, plan) && Progress(log, plan) >= n && Leads(said, n, upto, plan)
    ensures Guarded(log + said, plan) && Progress(log + said, plan) >= upto
    ensures Done(log, plan) ==> Done(log + said, plan)
  {
    hide Guarded, Progress, NeedsReady;
    if said == [] {
      assert log + said == log;
    } else {
      Grew(log, said[0], plan);
      assert said == [said[0]];
    }
  }

  lemma {:induction false} EnteredLink(c: Client, s: ClientState)
    requires MayEnter(c, s) && s != UnconnectedState && s != ReadyConnected && s != ReadyEncrypted
    ensures LinkInvariant(Entered(c, s))
  {
    hide Guarded, Progress, NeedsReady, Said, Rest, OpenedBy, Opened, Needed, Leads, Email.Recipients, Flags;
    var plan := Opened(c.connectionType);
    if s == Mail1RcptInit || s == Mail2Rcpt {
      RecipientsNeedAll(c.connectionType);
      RecipientLink(c);
    } else {
      var rest := Rest(s, c.auth);
      var said := Said(rest, c.connectionType == SslConnection, c.email);
      SaysNext(s, c.auth, c.connectionType, c.email);
      Led(c.session, said, Needed(s, c.connectionType), OpenedBy(rest, c.connectionType), plan);
      LinkFlags(c, s);
    }
  }

  lemma RecipientsNeedAll(ct: ConnectionType)
    ensures Needed(Mail1RcptInit, ct) == Needed(Mail2Rcpt, ct) == |Opened(ct)|
  {
    hide Opened;
  }

  lemma LinkFlags(c: Client, s: ClientState)
    requires s != UnconnectedState && s != ReadyConnected && s != ReadyEncrypted
    ensures Flags(c, s).session == c.session && Flags(c, s).connectionType == c.connectionType
    ensures Flags(c, s).ready ==> c.ready
  {
  }

  lemma {:induction false} RecipientLink(c: Client)
    requires Guarded(c.session, Opened(c.connectionType)) && Done(c.session, Opened(c.connectionType))
    ensures LinkInvariant(NextRecipient(c))
  {
    hide Guarded, Progress, Opened, Email.Recipients;
    var plan := Opened(c.connectionType);
    forall e ensures Guarded(c.session + [e], plan) && Done(c.session + [e], plan) {
      Grew(c.session, e, plan);
    }
  }

  /** The connection is called ready only when the plan is done. */
  lemma {:induction false} ReadyLink(c: Client, s: ClientState)
    requires MayEnter(c, s) && (s == ReadyConnected || s == ReadyEncrypted)
    ensures LinkInvariant(Entered(c, s)) && Entered(c, s).ready
  {
    hide Guarded, Progress, Opened;
    assert c.session + [] == c.session;
  }

  lemma UnconnectedLink(c: Client)
    ensures LinkInvariant(Entered(c, UnconnectedState)) && !Entered(c, UnconnectedState).ready
    ensures Entered(c, UnconnectedState).session == [] && !Entered(c, UnconnectedState).authenticated
  {
    hide Opened;
  }

  lemma {:induction false} EntryKeepsLink(c: Client, s: ClientState)
    requires MayEnter(c, s)
    ensures LinkInvariant(Entered(c, s))
  {
    hide LinkInvariant, Entered, MayEnter;
    if s == UnconnectedState { UnconnectedLink(c); }
    else if s == ReadyConnected || s == ReadyEncrypted { ReadyLink(c, s); }
    else { EnteredLink(c, s); }
  }

  /** Any other event: nothing is lost, and a guarded command is not among them. */
  lemma {:induction false} EventKeepsLink(c: Client, e: Event)
    requires LinkInvariant(c) && !NeedsReady(e)
    ensures LinkInvariant(c.Say(e))
  {
    hide Guarded, Progress, Opened, OpenedBy, NeedsReady;
    Grew(c.session, e, Opened(c.connectionType));
  }

  /** The reply a state waits for is the item of the plan that comes next. */
  lemma ReplyNext(s: ClientState, ct: ConnectionType, n: nat)
    requires Expected(s, ct).Expect? && n == OpenedBy(s, ct) <= |Opened(ct)|
    ensures var next := Expected(s, ct).next;
      && (next == TlsState || next == Tls0StartTls ==> ct == TlsConnection)
      && (Needed(next, ct) <= n ||
          (Needed(next, ct) == n + 1 <= |Opened(ct)| && Opened(ct)[n] == Got(s, Expected(s, ct).code)))
  {
  }

  lemma {:induction false} ReplyKeepsLink(c: Client, code: int)
    requires LinkInvariant(c)
    ensures LinkInvariant(Replied(c, code))
  {
    hide Expected, Entered, LinkInvariant, NeedsReady;
    var got := Got(c.state, code);
    var heard := c.Say(got);
    FailedIsFree(got);
    EventKeepsLink(c, got);
    forall e ensures LinkInvariant(heard.Say(Failed(e))) {
      FailedIsFree(Failed(e));
      EventKeepsLink(heard, Failed(e));
    }
    var expected := Expected(c.state, c.connectionType);
    if expected.Expect? && code == expected.code { ReplyAdmits(c); }
  }

  lemma {:induction false} ReplyAdmits(c: Client)
    requires LinkInvariant(c) && Expected(c.state, c.connectionType).Expect?
    ensures var expected := Expected(c.state, c.connectionType);
      LinkInvariant(Entered(c.Say(Got(c.state, expected.code)), expected.next))
  {
    hide Guarded, Progress, Opened, OpenedBy, NeedsReady, Needed, Expected, Entered;
    var ct := c.connectionType;
    var expected := Expected(c.state, ct);
    var got := Got(c.state, expected.code);
    FailedIsFree(got);
    EventKeepsLink(c, got);
    ReplyNext(c.state, ct, OpenedBy(c.state, ct));
    Advance(c.session, got, Opened(ct), OpenedBy(c.state, ct));
    EntryKeepsLink(c.Say(got), expected.next);
  }

  lemma FailedIsFree(e: Event)
    requires e.Failed? || e.Secured? || e.Got?
    ensures !NeedsReady(e)
  {
  }

  lemma {:induction false} StepKeepsLink(c: Client, i: Input)
    requires LinkInvariant(c)
    ensures LinkInvariant(Step(c, i))
  {
    hide Guarded, Progress, Opened, NeedsReady, Expected, Entered, Replied, Email.Recipients;
    match i
    case ConnectToHost => EntryKeepsLink(c, ConnectingState);
    case Login(auth) =>
      if c.ready { EntryKeepsLink(c.(auth := auth), AuthenticatingState); }
    case SendMail(email) =>
      if c.ready { EntryKeepsLink(c.(email := email, next := 0, mail := []), MailSendingState); }
    case Reset =>
      if c.ready { EntryKeepsLink(c, ResetState); }
    case QuitNow => EntryKeepsLink(c, QuittingState);
    case SocketConnected => EntryKeepsLink(c, ConnectedState);
    case SocketUnconnected => EntryKeepsLink(c, UnconnectedState);
    case SocketFailed => FailedIsFree(Failed(SocketError)); EventKeepsLink(c, Failed(SocketError));
    case SocketEncrypted =>
      FailedIsFree(Secured);
      EventKeepsLink(c, Secured);
      if c.state == Tls1Encrypt { HandshakeDone(c); }
    case Reply(code) => ReplyKeepsLink(c, code);
  }

  lemma {:induction false} HandshakeDone(c: Client)
    requires LinkInvariant(c) && c.state == Tls1Encrypt
    ensures LinkInvariant(Entered(c.Say(Secured), Tls2Ehlo))
  {
    hide Guarded, Progress, Entered, NeedsReady;
    FailedIsFree(Secured);
    EventKeepsLink(c, Secured);
    Advance(c.session, Secured, Opened(c.connectionType), 5);
    EntryKeepsLink(c.Say(Secured), Tls2Ehlo);
  }

  // ---- Authentication ----

  predicate Follows(said: seq<Event>, n: nat, upto: nat, plan: seq<Event>) {
    |said| <= 1 && (upto <= n || (|said| == 1 && upto == n + 1 <= |plan| && plan[n] == said[0]))
  }

  lemma {:induction false} Followed(log: seq<Event>, said: seq<Event>, n: nat, upto: nat, plan: seq<Event>)
    requires Progress(log, plan) >= n && Follows(said, n, upto, plan)
    ensures Progress(log + said, plan) >= upto
    ensures Done(log, plan) ==> Done(log + said, plan)
  {
    hide Guarded, Progress, NeedsReady;
    if said == [] {
      assert log + said == log;
    } else {
      Grew(log, said[0], plan);
      assert said == [said[0]];
    }
  }

  /** How much of a stepwise login has to be behind a state that is entered. */
  function StepsNeeded(s: ClientState): nat {
    match s
    case AuthLogin1User => 2
    case AuthLogin2Pass => 4
    case _ => 0
  }

  lemma AuthSays(s: ClientState, auth: AuthMethod, ssl: bool, email: Email)
    ensures Follows(Said(Rest(s, auth), ssl, email), 0, PlainBy(Rest(s, auth)), PlainLogin())
    ensures Follows(Said(Rest(s, auth), ssl, email), StepsNeeded(s), StepsBy(Rest(s, auth)), StepwiseLogin())
  {
  }

  lemma AuthFlags(c: Client, s: ClientState)
    requires s != UnconnectedState
    ensures Flags(c, s).session == c.session
    ensures Flags(c, s).authenticated ==> c.authenticated || s == ReadyAuthenticated
  {
  }

  predicate AuthMayEnter(c: Client, s: ClientState) {
    && (c.authenticated || s == ReadyAuthenticated ==> LoggedIn(c.session))
    && Progress(c.session, StepwiseLogin()) >= StepsNeeded(s)
  }

  lemma {:induction false} EnteredAuth(c: Client, s: ClientState)
    requires AuthMayEnter(c, s)
    ensures AuthInvariant(Entered(c, s))
  {
    hide Progress, Email.Recipients, PlainLogin, StepwiseLogin, Follows, Flags, Rest, Said, StepsNeeded, PlainBy, StepsBy;
    if s == UnconnectedState {
      UnconnectedLink(c);
      UnconnectedAuth(c);
    } else if s == Mail1RcptInit || s == Mail2Rcpt {
      RecipientAuth(c);
    } else {
      var said := Said(Rest(s, c.auth), c.connectionType == SslConnection, c.email);
      AuthSays(s, c.auth, c.connectionType == SslConnection, c.email);
      AuthFlags(c, s);
      Followed(c.session, said, 0, PlainBy(Rest(s, c.auth)), PlainLogin());
      Followed(c.session, said, StepsNeeded(s), StepsBy(Rest(s, c.auth)), StepwiseLogin());
    }
  }

  lemma UnconnectedAuth(c: Client)
    ensures AuthInvariant(Entered(c, UnconnectedState))
  {
    hide PlainLogin, StepwiseLogin;
  }

  lemma {:induction false} RecipientAuth(c: Client)
    requires c.authenticated ==> LoggedIn(c.session)
    ensures AuthInvariant(NextRecipient(c))
  {
    hide Progress, Email.Recipients, PlainLogin, StepwiseLogin;
    forall e ensures LoggedIn(c.session) ==> LoggedIn(c.session + [e]) {
      Followed(c.session, [e], 0, 0, PlainLogin());
      Followed(c.session, [e], 0, 0, StepwiseLogin());
    }
  }

  lemma {:induction false} EventKeepsAuth(c: Client, e: Event)
    requires AuthInvariant(c)
    ensures AuthInvariant(c.Say(e))
  {
    hide Progress, PlainLogin, StepwiseLogin, PlainBy, StepsBy;
    Followed(c.session, [e], PlainBy(c.state), PlainBy(c.state), PlainLogin());
    Followed(c.session, [e], StepsBy(c.state), StepsBy(c.state), StepwiseLogin());
  }

  lemma {:induction false} ReplyKeepsAuth(c: Client, code: int)
    requires AuthInvariant(c)
    ensures AuthInvariant(Replied(c, code))
  {
    hide Entered, AuthInvariant, Expected;
    var got := Got(c.state, code);
    var heard := c.Say(got);
    EventKeepsAuth(c, got);
    forall e ensures AuthInvariant(heard.Say(Failed(e))) {
      EventKeepsAuth(heard, Failed(e));
    }
    var expected := Expected(c.state, c.connectionType);
    if expected.Expect? && code == expected.code { AuthReplyAdmits(c); }
  }

  /** 235 in an AUTH state completes a login; the 334s are steps of one. */
  lemma AuthReplyNext(s: ClientState, ct: ConnectionType)
    requires Expected(s, ct).Expect?
    ensures var e := Expected(s, ct);
      && Follows([Got(s, e.code)], StepsBy(s), StepsNeeded(e.next), StepwiseLogin())
      && (e.next == ReadyAuthenticated ==>
            Follows([Got(s, e.code)], PlainBy(s), 2, PlainLogin()) || Follows([Got(s, e.code)], StepsBy(s), 6, StepwiseLogin()))
      && |PlainLogin()| == 2 && |StepwiseLogin()| == 6
  {
  }

  lemma {:induction false} AuthReplyAdmits(c: Client)
    requires AuthInvariant(c) && Expected(c.state, c.connectionType).Expect?
    ensures var expected := Expected(c.state, c.connectionType);
      AuthInvariant(Entered(c.Say(Got(c.state, expected.code)), expected.next))
  {
    hide Expected, Entered, Progress, PlainLogin, StepwiseLogin, StepsBy, PlainBy, StepsNeeded, Follows;
    var e := Expected(c.state, c.connectionType);
    var got := Got(c.state, e.code);
    EventKeepsAuth(c, got);
    AuthReplyNext(c.state, c.connectionType);
    Followed(c.session, [got], StepsBy(c.state), StepsNeeded(e.next), StepwiseLogin());
    if e.next == ReadyAuthenticated {
      if Follows([got], PlainBy(c.state), 2, PlainLogin()) {
        Followed(c.session, [got], PlainBy(c.state), 2, PlainLogin());
      } else {
        Followed(c.session, [got], StepsBy(c.state), 6, StepwiseLogin());
      }
    }
    EnteredAuth(c.Say(got), e.next);
  }

  lemma {:induction false} StepKeepsAuth(c: Client, i: Input)
    requires AuthInvariant(c)
    ensures AuthInvariant(Step(c, i))
  {
    hide Progress, PlainLogin, StepwiseLogin, Entered, Replied, Email.Recipients, PlainBy, StepsBy;
    match i
    case ConnectToHost => EnteredAuth(c, ConnectingState);
    case Login(auth) => EnteredAuth(c.(auth := auth), AuthenticatingState);
    case SendMail(email) => EnteredAuth(c.(email := email, next := 0, mail := []), MailSendingState);
    case Reset => EnteredAuth(c, ResetState);
    case QuitNow => EnteredAuth(c, QuittingState);
    case SocketConnected => EnteredAuth(c, ConnectedState);
    case SocketUnconnected => EnteredAuth(c, UnconnectedState);
    case SocketFailed => EventKeepsAuth(c, Failed(SocketError));
    case SocketEncrypted =>
      EventKeepsAuth(c, Secured);
      if c.state == Tls1Encrypt { EnteredAuth(c.Say(Secured), Tls2Ehlo); }
    case Reply(code) => ReplyKeepsAuth(c, code);
  }

  // ---- Every run ----

  predicate Invariant(c: Client) {
    MailInvariant(c) && LinkInvariant(c) && AuthInvariant(c)
  }

  lemma {:induction false} StepKeepsInvariant(c: Client, i: Input)
    requires Invariant(c)
    ensures Invariant(Step(c, i))
  {
    hide MailInvariant, LinkInvariant, AuthInvariant, Step;
    StepKeepsMail(c, i);
    StepKeepsLink(c, i);
    StepKeepsAuth(c, i);
  }

  lemma NewClientInvariant(connectionType: ConnectionType)
    ensures Invariant(NewClient(connectionType))
  {
    hide Opened, PlainLogin, StepwiseLogin, Opening;
  }

  lemma {:induction false} RunKeepsInvariant(connectionType: ConnectionType, inputs: seq<Input>)
    ensures Invariant(Run(connectionType, inputs))
  {
    hide Invariant, Step, NewClient;
    if inputs == [] {
      NewClientInvariant(connectionType);
    } else {
      RunKeepsInvariant(connectionType, inputs[..|inputs| - 1]);
      StepKeepsInvariant(Run(connectionType, inputs[..|inputs| - 1]), inputs[|inputs| - 1]);
    }
  }

  lemma {:induction false} StepKeepsType(c: Client, i: Input)
    ensures Step(c, i).connectionType == c.connectionType
  {
    hide Flags, Rest, Said, Email.Recipients, Expected;
    forall d: Client, s ensures Flags(d, s).connectionType == d.connectionType {
      FlagsOnly(d, s);
    }
  }

  lemma {:induction false} RunKeepsType(connectionType: ConnectionType, inputs: seq<Input>)
    ensures Run(connectionType, inputs).connectionType == connectionType
  {
    hide Step;
    if inputs != [] {
      RunKeepsType(connectionType, inputs[..|inputs| - 1]);
      StepKeepsType(Run(connectionType, inputs[..|inputs| - 1]), inputs[|inputs| - 1]);
    }
  }

  /** However the user, the server and the socket behave: the mail commands since the last
      sendMail begin the transcript of that mail, and are all of it once it is reported sent. */
  lemma {:induction false} MailIsTranscript(connectionType: ConnectionType, inputs: seq<Input>)
    ensures var c := Run(connectionType, inputs);
      && MailOnly(c.mail) <= Transcript(c.email)
      && (c.mailSent ==> MailOnly(c.mail) == Transcript(c.email))
  {
    hide MailOnly, Transcript, Run, LinkInvariant, AuthInvariant, MailProgress;
    RunKeepsInvariant(connectionType, inputs);
    ProgressIsPrefix(Run(connectionType, inputs));
  }

  /** On a TLS connection isReadyConnected means that in this session, in this order,
      the greeting and EHLO were answered, STARTTLS got its 220, the socket was encrypted
      and a second EHLO got its 250; before that no mail, reset or login command was sent. */
  lemma {:induction false} ReadyMeansEncrypted(inputs: seq<Input>)
    ensures var c := Run(TlsConnection, inputs);
      && (c.ready ==> Done(c.session,
            [Got(ConnectedState, 220), Ehlo, Got(EhloState, 250),
             StartTls, Got(Tls0StartTls, 220), Secured, Ehlo, Got(Tls2Ehlo, 250)]))
      && Guarded(c.session, Opened(TlsConnection))
  {
    assert Opened(TlsConnection) == [Got(ConnectedState, 220), Ehlo, Got(EhloState, 250),
             StartTls, Got(Tls0StartTls, 220), Secured, Ehlo, Got(Tls2Ehlo, 250)];
    hide Guarded, Run, MailInvariant, AuthInvariant, Progress, Opened;
    RunKeepsType(TlsConnection, inputs);
    RunKeepsInvariant(TlsConnection, inputs);
  }

  /** isAuthenticated means that this session saw a whole login, ended by a 235. */
  lemma {:induction false} AuthenticatedMeansLoggedIn(connectionType: ConnectionType, inputs: seq<Input>)
    ensures var c := Run(connectionType, inputs);
      c.authenticated ==> Done(c.session, PlainLogin()) || Done(c.session, StepwiseLogin())
  {
    hide Run, MailInvariant, LinkInvariant, Progress, PlainLogin, StepwiseLogin;
    RunKeepsInvariant(connectionType, inputs);
  }

  /** Losing the connection forgets both; a 221 to QUIT forgets only the first. */
  lemma {:induction false} DisconnectForgets(c: Client)
    ensures var d := Step(c, SocketUnconnected); !d.ready && !d.authenticated && d.session == []
    ensures c.state == QuittingState ==>
      var d := Step(c, Reply(221)); !d.ready && d.authenticated == c.authenticated
  {
    hide Replied, Said;
    UnconnectedLink(c);
    if c.state == QuittingState {
      Granted(c, 221);
      hide Step;
      Flagged(c.Say(Got(QuittingState, 221)));
    }
  }

  lemma Flagged(c: Client)
    ensures var d := Entered(c, DisconnectingState); !d.ready && d.authenticated == c.authenticated
  {
    hide Said;
  }

  // ---- A mail that goes well ----

  function Continue(c: Client, inputs: seq<Input>): Client
    decreases |inputs|
  {
    if inputs == [] then c else Continue(Step(c, inputs[0]), inputs[1..])
  }

  /** The replies a server that accepts everything gives to the rest of a mail. */
  function Acceptance(recipients: nat): seq<Input> {
    if recipients == 0 then [Reply(250), Reply(354), Reply(250)]
    else [Reply(250)] + Acceptance(recipients - 1)
  }

  /** Once ready, sendMail completes if the server accepts, also when there is no recipient. */
  lemma {:induction false} AcceptedMailIsSent(c: Client, email: Email)
    requires c.ready
    ensures Continue(Step(c, SendMail(email)), Acceptance(|email.Recipients()|)).mailSent
  {
    hide Continue, Acceptance, Email.Recipients;
    AcceptedFrom(Step(c, SendMail(email)), 0);
  }

  lemma {:induction false} AcceptedFrom(c: Client, k: nat)
    requires k <= |c.email.Recipients()| && c.next == k
    requires c.state == (if k == 0 then Mail0From else Mail2Rcpt)
    ensures Continue(c, Acceptance(|c.email.Recipients()| - k)).mailSent
    decreases |c.email.Recipients()| - k
  {
    hide Email.Recipients, Step;
    var n := |c.email.Recipients()|;
    var d := Step(c, Reply(250));
    AddressAccepted(c);
    if k < n {
      AcceptedFrom(d, k + 1);
      assert Acceptance(n - k)[1..] == Acceptance(n - k - 1);
    } else {
      DataGoesWell(d);
      assert Acceptance(0)[1..] == [Reply(354), Reply(250)];
    }
  }

  lemma {:induction false} AddressAccepted(c: Client)
    requires c.state == Mail0From || c.state == Mail2Rcpt
    ensures Step(c, Reply(250)) == NextRecipient(c.Say(Got(c.state, 250)))
    ensures var d := Step(c, Reply(250));
      && d.email == c.email
      && (c.next < |c.email.Recipients()| ==> d.next == c.next + 1 && d.state == Mail2Rcpt)
      && (c.next >= |c.email.Recipients()| ==> d.state == Mail3Data)
  {
    hide Email.Recipients, Flags, Rest, Said;
  }

  lemma {:induction false} DataGoesWell(c: Client)
    requires c.state == Mail3Data
    ensures Continue(c, [Reply(354), Reply(250)]).mailSent
  {
    hide Step;
    BodyFollows(c);
    var d := Step(c, Reply(354));
    var rest := [Reply(250)];
    assert [Reply(354), Reply(250)][1..] == rest && rest[1..] == [];
    assert Continue(d, rest) == Continue(Step(d, Reply(250)), []);
  }

  lemma {:induction false} BodyFollows(c: Client)
    requires c.state == Mail3Data
    ensures Step(Step(c, Reply(354)), Reply(250)).mailSent
  {
    DataGranted(c);
    hide Step;
    BodyGranted(Step(c, Reply(354)));
  }

  /** The awaited reply is what takes a client on. */
  lemma {:induction false} Granted(c: Client, code: int)
    requires Expected(c.state, c.connectionType).Expect? && code == Expected(c.state, c.connectionType).code < 400
    ensures Step(c, Reply(code)) == Entered(c.Say(Got(c.state, code)), Expected(c.state, c.connectionType).next)
  {
    hide Expected, Entered;
  }

  lemma {:induction false} DataGranted(c: Client)
    requires c.state == Mail3Data
    ensures Step(c, Reply(354)).state == Mail4SendData
  {
    hide Step, Said, Flags, NextRecipient;
    Granted(c, 354);
  }

  lemma {:induction false} BodyGranted(c: Client)
    requires c.state == Mail4SendData
    ensures Step(c, Reply(250)).mailSent
  {
    hide Step, Said, NextRecipient;
    Granted(c, 250);
  }
}

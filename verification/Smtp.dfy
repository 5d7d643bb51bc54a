/** The protocol smtpclient.cpp follows, and what holds over every run of it.

    A Client is the client's state with everything it said and heard: since the last
    sendMail (mail) and since the last time the socket was unconnected (session).  The
    transitions here are flat: recipients are one list and transient states are gone.
    SmtpClient.dfy has the re-entrant state changes of the source and shows that they
    amount to these.
  */
module Smtp {
  datatype ConnectionType = TcpConnection | SslConnection | TlsConnection

  datatype AuthMethod = AuthPlain | AuthLogin

  datatype SmtpError = AuthenticationError | MailSendingError | ServerError | ClientError | SocketError

  datatype ClientState =
    | UnconnectedState | ConnectingState | ConnectedState | ReadyState
    | AuthenticatingState | MailSendingState | DisconnectingState | ResetState
    | EhloState | TlsState
    | ReadyConnected | ReadyAuthenticated | ReadyMailSent | ReadyEncrypted
    | QuittingState
    | Tls0StartTls | Tls1Encrypt | Tls2Ehlo
    | AuthPlain0 | AuthLogin0 | AuthLogin1User | AuthLogin2Pass
    | Mail0From | Mail1RcptInit | Mail2Rcpt | Mail3Data | Mail4SendData

  datatype Email = Email(sender: string, to: seq<string>, cc: seq<string>, bcc: seq<string>, content: string) {
    function Recipients(): seq<string> {
      to + cc + bcc
    }
  }

  /** What passes between the client, its socket and its user. */
  datatype Event =
    | Dial(encrypted: bool) | HangUp | Handshake | Secured
    | Ehlo | StartTls | Quit | Rset
    | PlainCredentials | LoginCommand | LoginUser | LoginPass
    | MailFrom(address: string) | RcptTo(address: string) | Data | Body(content: string)
    | Got(state: ClientState, code: int)
    | Failed(error: SmtpError)

  datatype Client = Client(
    state: ClientState, connectionType: ConnectionType,
    ready: bool, authenticated: bool, mailSent: bool, auth: AuthMethod,
    email: Email, next: nat, session: seq<Event>, mail: seq<Event>)
  {
    function Say(e: Event): Client {
      this.(session := session + [e], mail := mail + [e])
    }

    function Go(s: ClientState): Client {
      this.(state := s)
    }
  }

  function NewClient(connectionType: ConnectionType): Client {
    Client(UnconnectedState, connectionType, false, false, false, AuthPlain, Email("", [], [], [], ""), 0, [], [])
  }

  // ---- Transitions ----

  /** The next recipient in To, Cc, Bcc order, or DATA when there is none left. */
  function NextRecipient(c: Client): Client {
    if c.next < |c.email.Recipients()| then
      c.(next := c.next + 1).Go(Mail2Rcpt).Say(RcptTo(c.email.Recipients()[c.next]))
    else
      c.Go(Mail3Data).Say(Data)
  }

  /** Where the client comes to rest after entering s: transient states pass on. */
  function Rest(s: ClientState, auth: AuthMethod): ClientState {
    match s
    case AuthenticatingState => if auth == AuthPlain then AuthPlain0 else AuthLogin0
    case MailSendingState => Mail0From
    case TlsState => Tls0StartTls
    case ReadyConnected => ReadyState
    case ReadyEncrypted => ReadyState
    case ReadyAuthenticated => ReadyState
    case ReadyMailSent => ReadyState
    case _ => s
  }

  /** What is said on coming to rest in s. */
  function Said(s: ClientState, ssl: bool, email: Email): seq<Event> {
    match s
    case ConnectingState => [Dial(ssl)]
    case QuittingState => [Quit]
    case DisconnectingState => [HangUp]
    case ResetState => [Rset]
    case EhloState => [Ehlo]
    case Tls0StartTls => [StartTls]
    case Tls1Encrypt => [Handshake]
    case Tls2Ehlo => [Ehlo]
    case AuthPlain0 => [PlainCredentials]
    case AuthLogin0 => [LoginCommand]
    case AuthLogin1User => [LoginUser]
    case AuthLogin2Pass => [LoginPass]
    case Mail0From => [MailFrom(email.sender)]
    case Mail3Data => [Data]
    case Mail4SendData => [Body(email.content)]
    case _ => []
  }

  function Flags(c: Client, s: ClientState): Client {
    match s
    case AuthenticatingState => c.(authenticated := false)
    case MailSendingState => c.(mailSent := false)
    case DisconnectingState => c.(ready := false)
    case UnconnectedState => c.(ready := false, authenticated := false, session := [])
    case ReadyConnected => c.(ready := true)
    case ReadyEncrypted => c.(ready := true)
    case ReadyAuthenticated => c.(authenticated := true, auth := AuthPlain)
    case ReadyMailSent => c.(mailSent := true)
    case _ => c
  }

  function Entered(c: Client, s: ClientState): Client {
    if s == Mail1RcptInit || s == Mail2Rcpt then NextRecipient(c)
    else
      var d := Flags(c, s);
      var rest := Rest(s, c.auth);
      var said := Said(rest, c.connectionType == SslConnection, c.email);
      d.(state := rest, session := d.session + said, mail := d.mail + said)
  }

  /** The reply each state waits for, the error any other one is, and what comes next. */
  datatype Expectation = Expect(code: int, error: SmtpError, next: ClientState) | Nothing

  function Expected(s: ClientState, connectionType: ConnectionType): Expectation {
    match s
    case ConnectedState => Expect(220, ServerError, EhloState)
    case ResetState => Expect(250, ServerError, ReadyState)
    case EhloState => Expect(250, ServerError, if connectionType != TlsConnection then ReadyConnected else TlsState)
    case QuittingState => Expect(221, ClientError, DisconnectingState)
    case Tls0StartTls => Expect(220, ServerError, Tls1Encrypt)
    case Tls2Ehlo => Expect(250, ServerError, ReadyEncrypted)
    case AuthPlain0 => Expect(235, AuthenticationError, ReadyAuthenticated)
    case AuthLogin0 => Expect(334, AuthenticationError, AuthLogin1User)
    case AuthLogin1User => Expect(334, AuthenticationError, AuthLogin2Pass)
    case AuthLogin2Pass => Expect(235, AuthenticationError, ReadyAuthenticated)
    case Mail0From => Expect(250, MailSendingError, Mail1RcptInit)
    case Mail2Rcpt => Expect(250, MailSendingError, Mail2Rcpt)
    case Mail3Data => Expect(354, MailSendingError, Mail4SendData)
    case Mail4SendData => Expect(250, MailSendingError, ReadyMailSent)
    case _ => Nothing
  }

  /** A complete reply: 4xx and 5xx are errors wherever they come. */
  function Replied(c: Client, code: int): Client {
    var heard := c.Say(Got(c.state, code));
    if 400 <= code < 500 then heard.Say(Failed(ServerError))
    else if 500 <= code < 600 then heard.Say(Failed(ClientError))
    else
      match Expected(c.state, c.connectionType)
      case Nothing => heard
      case Expect(wanted, error, next) =>
        if code == wanted then Entered(heard, next) else heard.Say(Failed(error))
  }

  datatype Input =
    | ConnectToHost | Login(auth: AuthMethod) | SendMail(email: Email) | Reset | QuitNow
    | SocketConnected | SocketUnconnected | SocketFailed | SocketEncrypted | Reply(code: int)

  function Step(c: Client, i: Input): Client {
    match i
    case ConnectToHost => if c.state == UnconnectedState then Entered(c, ConnectingState) else c
    case Login(auth) =>
      var d := c.(auth := auth);
      if c.ready && !c.authenticated then Entered(d, AuthenticatingState) else d
    case SendMail(email) =>
      if c.ready then Entered(c.(email := email, next := 0, mail := []), MailSendingState) else c
    case Reset => if c.ready then Entered(c, ResetState) else c
    case QuitNow => Entered(c, QuittingState)
    case SocketConnected => Entered(c, ConnectedState)
    case SocketUnconnected => Entered(c, UnconnectedState)
    case SocketFailed => c.Say(Failed(SocketError))
    case SocketEncrypted =>
      var d := c.Say(Secured);
      if c.state == Tls1Encrypt then Entered(d, Tls2Ehlo) else d
    case Reply(code) => Replied(c, code)
  }

  function Run(connectionType: ConnectionType, inputs: seq<Input>): Client {
    if inputs == [] then NewClient(connectionType)
    else Step(Run(connectionType, inputs[..|inputs| - 1]), inputs[|inputs| - 1])
  }

  // ---- The mail transcript ----

  /** Mail commands, and the replies that let the mail go on. */
  predicate IsMail(e: Event) {
    match e
    case MailFrom(_) => true
    case RcptTo(_) => true
    case Data => true
    case Body(_) => true
    case Got(s, code) =>
      (s == Mail0From && code == 250) || (s == Mail2Rcpt && code == 250) ||
      (s == Mail3Data && code == 354) || (s == Mail4SendData && code == 250)
    case _ => false
  }

  function MailOnly(log: seq<Event>): seq<Event> {
    if log == [] then []
    else
      var e := log[|log| - 1];
      MailOnly(log[..|log| - 1]) + (if IsMail(e) then [e] else [])
  }

  function Accepted(recipients: seq<string>): seq<Event> {
    if recipients == [] then []
    else Accepted(recipients[..|recipients| - 1]) + [RcptTo(recipients[|recipients| - 1]), Got(Mail2Rcpt, 250)]
  }

  /** Everything up to the acceptance of the first k recipients. */
  function Opening(email: Email, k: nat): seq<Event>
    requires k <= |email.Recipients()|
  {
    [MailFrom(email.sender), Got(Mail0From, 250)] + Accepted(email.Recipients()[..k])
  }

  /** Section 3.3 of RFC 5321: the whole of a successful mail transaction. */
  function Transcript(email: Email): seq<Event> {
    Opening(email, |email.Recipients()|) +
    [Data, Got(Mail3Data, 354), Body(email.content), Got(Mail4SendData, 250)]
  }

  /** How far the transcript has got, read off the state. */
  predicate MailProgress(c: Client) {
    var log := MailOnly(c.mail);
    var n := |c.email.Recipients()|;
    match c.state
    case Mail0From => log == [MailFrom(c.email.sender)] && c.next == 0
    case Mail2Rcpt =>
      && 0 < c.next <= n
      && log == Opening(c.email, c.next - 1) + [RcptTo(c.email.Recipients()[c.next - 1])]
    case Mail3Data => log == Opening(c.email, n) + [Data]
    case Mail4SendData => log == Opening(c.email, n) + [Data, Got(Mail3Data, 354), Body(c.email.content)]
    case _ => log <= Transcript(c.email)
  }

  predicate MailInvariant(c: Client) {
    && MailProgress(c)
    && (c.mailSent ==> MailOnly(c.mail) == Transcript(c.email))
    && (InMail(c.state) ==> !c.mailSent)
  }

  predicate InMail(s: ClientState) {
    s == Mail0From || s == Mail2Rcpt || s == Mail3Data || s == Mail4SendData
  }

  lemma Heard(log: seq<Event>, e: Event)
    ensures MailOnly(log + [e]) == MailOnly(log) + (if IsMail(e) then [e] else [])
  {
    hide IsMail;
    assert (log + [e])[..|log|] == log;
  }

  lemma {:induction false} AcceptedPrefix(recipients: seq<string>, k: nat)
    requires k <= |recipients|
    ensures Accepted(recipients[..k]) <= Accepted(recipients)
  {
    if k < |recipients| {
      var front := recipients[..|recipients| - 1];
      AcceptedPrefix(front, k);
      assert front[..k] == recipients[..k];
    } else {
      assert recipients[..k] == recipients;
    }
  }

  lemma {:induction false} OneMoreAccepted(email: Email, k: nat)
    requires k < |email.Recipients()|
    ensures Opening(email, k + 1) ==
      Opening(email, k) + [RcptTo(email.Recipients()[k]), Got(Mail2Rcpt, 250)]
  {
    hide Email.Recipients;
    var all := email.Recipients();
    assert all[..k + 1][..k] == all[..k];
  }

  /** Whatever the state, the mail commands so far begin a correct transaction. */
  lemma {:induction false} ProgressIsPrefix(c: Client)
    requires MailProgress(c)
    ensures MailOnly(c.mail) <= Transcript(c.email)
  {
    hide Email.Recipients, MailOnly, Accepted, Opening, IsMail;
    var all := c.email.Recipients();
    var log, whole := MailOnly(c.mail), Opening(c.email, |all|);
    match c.state
    case Mail0From =>
      OpeningBounds(c.email, |all|);
    case Mail2Rcpt =>
      OpeningBounds(c.email, c.next);
      OneMoreAccepted(c.email, c.next - 1);
      assert log <= Opening(c.email, c.next);
    case Mail3Data => assert Transcript(c.email) == log + [Got(Mail3Data, 354), Body(c.email.content), Got(Mail4SendData, 250)];
    case Mail4SendData => assert Transcript(c.email) == log + [Got(Mail4SendData, 250)];
    case _ =>
  }

  lemma {:induction false} OpeningBounds(email: Email, k: nat)
    requires k <= |email.Recipients()|
    ensures [MailFrom(email.sender)] <= Opening(email, k) <= Opening(email, |email.Recipients()|)
  {
    hide Email.Recipients, Accepted;
    var all := email.Recipients();
    assert all[..|all|] == all;
    AcceptedPrefix(all, k);
  }

  // ---- Every step keeps the mail transcript ----

  /** Nothing out of order has been sent, and isMailSent is not claimed early. */
  predicate Calm(c: Client) {
    && MailOnly(c.mail) <= Transcript(c.email)
    && (c.mailSent ==> MailOnly(c.mail) == Transcript(c.email))
  }

  predicate MailState(s: ClientState) {
    InMail(s) || s == MailSendingState || s == Mail1RcptInit || s == ReadyMailSent
  }

  lemma {:induction false} EnteredCalm(c: Client, s: ClientState)
    requires Calm(c) && !MailState(s)
    ensures MailInvariant(Entered(c, s))
  {
    hide MailOnly, Transcript, IsMail, Opening, Email.Recipients, Said, Rest, Flags;
    var said := Said(Rest(s, c.auth), c.connectionType == SslConnection, c.email);
    QuietEntry(s, c.auth, c.connectionType == SslConnection, c.email);
    FlagsOnly(c, s);
    if said == [] {
      assert c.mail + said == c.mail;
    } else {
      Heard(c.mail, said[0]);
    }
  }

  /** Coming to rest in any other state says at most one thing, and that is no mail command. */
  lemma QuietEntry(s: ClientState, auth: AuthMethod, ssl: bool, email: Email)
    requires !MailState(s)
    ensures !InMail(Rest(s, auth))
    ensures Said(Rest(s, auth), ssl, email) == [] ||
      (exists e :: Said(Rest(s, auth), ssl, email) == [e] && !IsMail(e))
  {
  }

  lemma FlagsOnly(c: Client, s: ClientState)
    ensures Flags(c, s).email == c.email && Flags(c, s).mail == c.mail && Flags(c, s).next == c.next
    ensures Flags(c, s).connectionType == c.connectionType
    ensures s != MailSendingState && s != ReadyMailSent ==> Flags(c, s).mailSent == c.mailSent
  {
  }

  lemma {:induction false} NextRecipientKeeps(c: Client)
    requires c.next <= |c.email.Recipients()| && !c.mailSent
    requires MailOnly(c.mail) == Opening(c.email, c.next)
    ensures MailInvariant(NextRecipient(c))
  {
    hide MailOnly, Transcript, Opening, Email.Recipients;
    if c.next < |c.email.Recipients()| {
      Heard(c.mail, RcptTo(c.email.Recipients()[c.next]));
    } else {
      Heard(c.mail, Data);
    }
  }

  lemma {:induction false} ReplyKeepsMail(c: Client, code: int)
    requires MailInvariant(c)
    ensures MailInvariant(Replied(c, code))
  {
    hide MailOnly, Transcript, Opening, Email.Recipients, Entered, MailProgress;
    var got := Got(c.state, code);
    var heard := c.Say(got);
    Heard(c.mail, got);
    ProgressIsPrefix(c);
    if InMail(c.state) {
      MailReply(c, code);
    } else {
      SaidCalm(heard);
      if Expected(c.state, c.connectionType).Expect? {
        EnteredCalm(heard, Expected(c.state, c.connectionType).next);
      }
    }
  }

  lemma {:induction false} MailReply(c: Client, code: int)
    requires MailInvariant(c) && InMail(c.state)
    ensures MailInvariant(Replied(c, code))
  {
    hide MailInvariant, NextRecipient, Transcript, Opening, Email.Recipients, MailOnly;
    var wanted := Expected(c.state, c.connectionType);
    if code != wanted.code {
      StillWaiting(c, code, ServerError);
      StillWaiting(c, code, ClientError);
      StillWaiting(c, code, wanted.error);
    } else if c.state == Mail0From {
      SenderAccepted(c);
    } else if c.state == Mail2Rcpt {
      RecipientAccepted(c);
    } else if c.state == Mail3Data {
      DataAccepted(c);
    } else {
      MailAccepted(c);
    }
  }

  lemma {:induction false} SenderAccepted(c: Client)
    requires MailInvariant(c) && c.state == Mail0From
    ensures MailInvariant(NextRecipient(c.Say(Got(Mail0From, 250))))
  {
    hide MailOnly, Transcript, Email.Recipients;
    var heard := c.Say(Got(Mail0From, 250));
    Heard(c.mail, Got(Mail0From, 250));
    assert c.email.Recipients()[..0] == [];
    NextRecipientKeeps(heard);
  }

  lemma {:induction false} RecipientAccepted(c: Client)
    requires MailInvariant(c) && c.state == Mail2Rcpt
    ensures MailInvariant(NextRecipient(c.Say(Got(Mail2Rcpt, 250))))
  {
    hide MailOnly, Transcript, Email.Recipients, Opening;
    var heard := c.Say(Got(Mail2Rcpt, 250));
    Heard(c.mail, Got(Mail2Rcpt, 250));
    OneMoreAccepted(c.email, c.next - 1);
    NextRecipientKeeps(heard);
  }

  lemma {:induction false} DataAccepted(c: Client)
    requires MailInvariant(c) && c.state == Mail3Data
    ensures MailInvariant(Entered(c.Say(Got(Mail3Data, 354)), Mail4SendData))
  {
    hide MailOnly, Transcript, Email.Recipients, Opening, Entered;
    BodyEntry(c.Say(Got(Mail3Data, 354)));
    Heard(c.mail, Got(Mail3Data, 354));
    Heard(c.mail + [Got(Mail3Data, 354)], Body(c.email.content));
  }

  lemma BodyEntry(c: Client)
    ensures Entered(c, Mail4SendData) == c.Go(Mail4SendData).Say(Body(c.email.content))
  {
  }

  lemma SentEntry(c: Client)
    ensures Entered(c, ReadyMailSent) == c.(mailSent := true).Go(ReadyState)
  {
    assert c.mail + [] == c.mail && c.session + [] == c.session;
  }

  lemma {:induction false} MailAccepted(c: Client)
    requires MailInvariant(c) && c.state == Mail4SendData
    ensures MailInvariant(Entered(c.Say(Got(Mail4SendData, 250)), ReadyMailSent))
  {
    hide MailOnly, Email.Recipients, Opening, Entered;
    SentEntry(c.Say(Got(Mail4SendData, 250)));
    Heard(c.mail, Got(Mail4SendData, 250));
  }

  /** Errors told to the user change nothing. */
  lemma {:induction false} SaidCalm(c: Client)
    requires Calm(c) && !InMail(c.state)
    ensures MailInvariant(c)
    ensures forall e :: MailInvariant(c.Say(Failed(e)))
  {
    hide MailOnly, Transcript, Opening, Email.Recipients;
    forall e ensures MailInvariant(c.Say(Failed(e))) {
      Heard(c.mail, Failed(e));
    }
  }

  lemma {:induction false} StillWaiting(c: Client, code: int, error: SmtpError)
    requires MailInvariant(c) && InMail(c.state) && !IsMail(Got(c.state, code))
    ensures MailInvariant(c.Say(Got(c.state, code)).Say(Failed(error)))
  {
    hide MailOnly, Transcript, Opening, Email.Recipients;
    var d := c.Say(Got(c.state, code));
    Heard(c.mail, Got(c.state, code));
    Heard(d.mail, Failed(error));
  }

  lemma {:induction false} StepKeepsMail(c: Client, i: Input)
    requires MailInvariant(c)
    ensures MailInvariant(Step(c, i))
  {
    hide MailOnly, Transcript, Opening, Email.Recipients, Entered, MailProgress, Replied;
    ProgressIsPrefix(c);
    match i
    case SendMail(email) =>
      if c.ready { MailBegins(c.(email := email, next := 0, mail := [])); }
    case Login(auth) =>
      AuthIsNoMail(c, auth);
      EnteredCalm(c.(auth := auth), AuthenticatingState);
    case Reply(code) => ReplyKeepsMail(c, code);
    case SocketEncrypted =>
      SaidNothing(c, Secured);
      if c.state == Tls1Encrypt { EnteredCalm(c.Say(Secured), Tls2Ehlo); }
    case SocketFailed => SaidNothing(c, Failed(SocketError));
    case ConnectToHost => EnteredCalm(c, ConnectingState);
    case Reset => EnteredCalm(c, ResetState);
    case QuitNow => EnteredCalm(c, QuittingState);
    case SocketConnected => EnteredCalm(c, ConnectedState);
    case SocketUnconnected => EnteredCalm(c, UnconnectedState);
  }

  lemma {:induction false} SaidNothing(c: Client, e: Event)
    requires MailInvariant(c) && !IsMail(e)
    ensures MailInvariant(c.Say(e)) && Calm(c.Say(e))
  {
    hide MailOnly, Transcript, Opening, Email.Recipients, IsMail;
    ProgressIsPrefix(c);
    Heard(c.mail, e);
  }

  lemma MailBegins(c: Client)
    requires c.next == 0 && c.mail == []
    ensures MailInvariant(Entered(c, MailSendingState))
  {
    hide Transcript, Opening, Email.Recipients;
    Heard([], MailFrom(c.email.sender));
  }

  lemma AuthIsNoMail(c: Client, auth: AuthMethod)
    requires MailInvariant(c)
    ensures MailInvariant(c.(auth := auth)) && Calm(c.(auth := auth))
  {
    hide Transcript, Opening, Email.Recipients, MailOnly;
    ProgressIsPrefix(c);
  }
}

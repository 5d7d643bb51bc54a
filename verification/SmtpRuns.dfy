/** Runs of the protocol that go well, and what the wrong reply does to each state: every
    command, code and error stands here as smtpclient.cpp has it.
  */
module SmtpRuns {
  import opened Smtp
  import opened SmtpSession

  /** A client that has come to rest in s and has said and heard some more. */
  function Told(c: Client, s: ClientState, said: seq<Event>): Client {
    c.(state := s, session := c.session + said, mail := c.mail + said)
  }

  lemma ToldTwice(c: Client, s: ClientState, t: ClientState, said: seq<Event>, more: seq<Event>)
    ensures Told(Told(c, s, said), t, more) == Told(c, t, said + more)
  {
    assert c.session + said + more == c.session + (said + more);
    assert c.mail + said + more == c.mail + (said + more);
  }

  /** States that are entered without choosing a recipient or forgetting the session. */
  predicate Settling(s: ClientState) {
    s != UnconnectedState && s != Mail1RcptInit && s != Mail2Rcpt
  }

  lemma {:induction false} Enters(c: Client, s: ClientState, said: seq<Event>)
    requires Settling(s)
    ensures var rest := Rest(s, c.auth);
      Entered(Told(c, c.state, said), s) ==
        Told(Flags(c, s), rest, said + Said(rest, c.connectionType == SslConnection, c.email))
  {
    hide Rest, Said, NextRecipient;
    var more := Said(Rest(s, c.auth), c.connectionType == SslConnection, c.email);
    FlagsOnly(c, s);
    ToldFlags(c, s, said);
    ToldTwice(Flags(c, s), c.state, Rest(s, c.auth), said, more);
  }

  lemma {:induction false} ToldFlags(c: Client, s: ClientState, said: seq<Event>)
    requires Settling(s)
    ensures Flags(Told(c, c.state, said), s) == Told(Flags(c, s), c.state, said)
  {
  }

  lemma {:induction false} ReplyTakes(c: Client, code: int)
    requires Expected(c.state, c.connectionType).Expect? && code == Expected(c.state, c.connectionType).code < 400
    requires Settling(Expected(c.state, c.connectionType).next)
    ensures var s := Expected(c.state, c.connectionType).next;
      var rest := Rest(s, c.auth);
      Step(c, Reply(code)) ==
        Told(Flags(c, s), rest, [Got(c.state, code)] + Said(rest, c.connectionType == SslConnection, c.email))
  {
    hide Step, Entered, Rest, Said, Expected, Flags;
    Granted(c, code);
    Enters(c, Expected(c.state, c.connectionType).next, [Got(c.state, code)]);
  }

  lemma ToldNothing(c: Client)
    ensures Told(c, c.state, []) == c
  {
    assert c.session + [] == c.session && c.mail + [] == c.mail;
  }

  // ---- Becoming ready ----

  lemma {:induction false} Dialled(c: Client)
    requires c.state == UnconnectedState
    ensures Step(c, ConnectToHost) == Told(c, ConnectingState, [Dial(c.connectionType == SslConnection)])
  {
    hide Entered, NextRecipient;
    ToldNothing(c);
    Enters(c, ConnectingState, []);
  }

  lemma {:induction false} Connected(c: Client)
    ensures Step(c, SocketConnected) == Told(c, ConnectedState, [])
  {
    hide Entered;
    ToldNothing(c);
    Enters(c, ConnectedState, []);
  }

  lemma {:induction false} Greeted(c: Client)
    requires c.state == ConnectedState
    ensures Step(c, Reply(220)) == Told(c, EhloState, [Got(ConnectedState, 220), Ehlo])
  {
    hide Step;
    ReplyTakes(c, 220);
  }

  lemma {:induction false} Welcomed(c: Client)
    requires c.state == EhloState
    ensures c.connectionType == TlsConnection ==>
      Step(c, Reply(250)) == Told(c, Tls0StartTls, [Got(EhloState, 250), StartTls])
    ensures c.connectionType != TlsConnection ==>
      Step(c, Reply(250)) == Told(c.(ready := true), ReadyState, [Got(EhloState, 250)])
  {
    hide Step;
    ReplyTakes(c, 250);
  }

  lemma {:induction false} TlsGranted(c: Client)
    requires c.state == Tls0StartTls
    ensures Step(c, Reply(220)) == Told(c, Tls1Encrypt, [Got(Tls0StartTls, 220), Handshake])
  {
    hide Step;
    ReplyTakes(c, 220);
  }

  lemma {:induction false} Encrypted(c: Client)
    requires c.state == Tls1Encrypt
    ensures Step(c, SocketEncrypted) == Told(c, Tls2Ehlo, [Secured, Ehlo])
  {
    hide Entered;
    Enters(c, Tls2Ehlo, [Secured]);
  }

  lemma {:induction false} WelcomedAgain(c: Client)
    requires c.state == Tls2Ehlo
    ensures Step(c, Reply(250)) == Told(c.(ready := true), ReadyState, [Got(Tls2Ehlo, 250)])
  {
    hide Step;
    ReplyTakes(c, 250);
  }

  lemma OneInput(c: Client, i: Input)
    ensures Continue(c, [i]) == Step(c, i)
  {
    hide Step;
    assert Continue(Step(c, i), []) == Step(c, i) && [i][1..] == [];
  }

  lemma {:induction false} ThenInput(c: Client, inputs: seq<Input>, i: Input)
    ensures Continue(c, inputs + [i]) == Step(Continue(c, inputs), i)
    decreases |inputs|
  {
    hide Step;
    if inputs == [] {
      OneInput(c, i);
      assert inputs + [i] == [i];
    } else {
      assert (inputs + [i])[1..] == inputs[1..] + [i];
      ThenInput(Step(c, inputs[0]), inputs[1..], i);
    }
  }

  /** The first four inputs of a server that accepts, and all that is said. */
  lemma {:induction false} HelloGoesWell(ct: ConnectionType)
    ensures var c := Continue(NewClient(ct), [ConnectToHost, SocketConnected, Reply(220), Reply(250)]);
      var log := [Dial(ct == SslConnection), Got(ConnectedState, 220), Ehlo, Got(EhloState, 250)];
      if ct == TlsConnection then c == Told(NewClient(ct), Tls0StartTls, log + [StartTls])
      else c == Told(NewClient(ct).(ready := true), ReadyState, log)
  {
    hide Step, Told;
    var c := NewClient(ct);
    var i1, i2, i3 := [ConnectToHost], [ConnectToHost, SocketConnected], [ConnectToHost, SocketConnected, Reply(220)];
    OneInput(c, ConnectToHost);
    Dialled(c);
    ThenInput(c, i1, SocketConnected);
    ThenInput(c, i2, Reply(220));
    ThenInput(c, i3, Reply(250));
    assert i1 + [SocketConnected] == i2 && i2 + [Reply(220)] == i3;
    assert i3 + [Reply(250)] == [ConnectToHost, SocketConnected, Reply(220), Reply(250)];
    GreetingLog(c);
  }

  lemma {:induction false} GreetingLog(c: Client)
    requires c.state == UnconnectedState
    ensures var d := Step(Step(Step(Step(c, ConnectToHost), SocketConnected), Reply(220)), Reply(250));
      var log := [Dial(c.connectionType == SslConnection), Got(ConnectedState, 220), Ehlo, Got(EhloState, 250)];
      if c.connectionType == TlsConnection then d == Told(c, Tls0StartTls, log + [StartTls])
      else d == Told(c.(ready := true), ReadyState, log)
  {
    hide Step;
    Dialled(c);
    var c1 := Step(c, ConnectToHost);
    Connected(c1);
    var c2 := Step(c1, SocketConnected);
    Greeted(c2);
    Welcomed(Step(c2, Reply(220)));
  }

  lemma {:induction false} HandshakeLog(c: Client, log: seq<Event>)
    requires c.state == UnconnectedState && log + [StartTls] != []
    ensures Step(Step(Step(Told(c, Tls0StartTls, log + [StartTls]), Reply(220)), SocketEncrypted), Reply(250)) ==
      Told(c.(ready := true), ReadyState,
        log + [StartTls, Got(Tls0StartTls, 220), Handshake, Secured, Ehlo, Got(Tls2Ehlo, 250)])
  {
    hide Step;
    var c0 := Told(c, Tls0StartTls, log + [StartTls]);
    TlsGranted(c0);
    var c1 := Step(c0, Reply(220));
    Encrypted(c1);
    WelcomedAgain(Step(c1, SocketEncrypted));
  }

  /** A server that accepts everything makes a new client ready: over TCP and SSL after the
      first EHLO, over TLS after the second, with exactly these commands, in this order. */
  lemma {:induction false} BecomesReady(ct: ConnectionType)
    ensures ct != TlsConnection ==>
      Continue(NewClient(ct), [ConnectToHost, SocketConnected, Reply(220), Reply(250)]) ==
        Told(NewClient(ct).(ready := true), ReadyState,
          [Dial(ct == SslConnection), Got(ConnectedState, 220), Ehlo, Got(EhloState, 250)])
    ensures ct == TlsConnection ==>
      Continue(NewClient(ct),
        [ConnectToHost, SocketConnected, Reply(220), Reply(250), Reply(220), SocketEncrypted, Reply(250)]) ==
        Told(NewClient(ct).(ready := true), ReadyState,
          [Dial(false), Got(ConnectedState, 220), Ehlo, Got(EhloState, 250),
           StartTls, Got(Tls0StartTls, 220), Handshake, Secured, Ehlo, Got(Tls2Ehlo, 250)])
  {
    hide Step, Told;
    HelloGoesWell(ct);
    if ct == TlsConnection {
      var c := NewClient(ct);
      var i4 := [ConnectToHost, SocketConnected, Reply(220), Reply(250)];
      var log := [Dial(false), Got(ConnectedState, 220), Ehlo, Got(EhloState, 250)];
      HandshakeLog(c, log);
      ThenInput(c, i4, Reply(220));
      ThenInput(c, i4 + [Reply(220)], SocketEncrypted);
      ThenInput(c, i4 + [Reply(220)] + [SocketEncrypted], Reply(250));
      assert i4 + [Reply(220)] + [SocketEncrypted] + [Reply(250)] ==
        [ConnectToHost, SocketConnected, Reply(220), Reply(250), Reply(220), SocketEncrypted, Reply(250)];
      assert log + [StartTls, Got(Tls0StartTls, 220), Handshake, Secured, Ehlo, Got(Tls2Ehlo, 250)] ==
        [Dial(false), Got(ConnectedState, 220), Ehlo, Got(EhloState, 250),
         StartTls, Got(Tls0StartTls, 220), Handshake, Secured, Ehlo, Got(Tls2Ehlo, 250)];
    }
  }

  // ---- Logging in ----

  lemma {:induction false} LoginBegins(c: Client, method': AuthMethod)
    requires c.ready && !c.authenticated
    ensures Step(c, Login(method')) ==
      if method' == AuthPlain then Told(c.(auth := method'), AuthPlain0, [PlainCredentials])
      else Told(c.(auth := method'), AuthLogin0, [LoginCommand])
  {
    hide Entered, NextRecipient;
    ToldNothing(c.(auth := method'));
    Enters(c.(auth := method'), AuthenticatingState, []);
  }

  lemma {:induction false} LoginEnds(c: Client)
    requires c.state == AuthPlain0 || c.state == AuthLogin2Pass
    ensures Step(c, Reply(235)) == Told(c.(authenticated := true, auth := AuthPlain), ReadyState, [Got(c.state, 235)])
  {
    hide Step;
    ReplyTakes(c, 235);
  }

  lemma {:induction false} LoginGoesOn(c: Client)
    ensures c.state == AuthLogin0 ==>
      Step(c, Reply(334)) == Told(c, AuthLogin1User, [Got(AuthLogin0, 334), LoginUser])
    ensures c.state == AuthLogin1User ==>
      Step(c, Reply(334)) == Told(c, AuthLogin2Pass, [Got(AuthLogin1User, 334), LoginPass])
  {
    hide Step;
    if c.state == AuthLogin0 || c.state == AuthLogin1User { ReplyTakes(c, 334); }
  }

  /** From any ready client that is not logged in, a server that accepts ends the login with
      isAuthenticated set and the client at rest, by either method. */
  lemma {:induction false} LoginSucceeds(c: Client)
    requires c.ready && !c.authenticated
    ensures Continue(c, [Login(AuthPlain), Reply(235)]) ==
      Told(c.(authenticated := true, auth := AuthPlain), ReadyState, [PlainCredentials, Got(AuthPlain0, 235)])
    ensures Continue(c, [Login(AuthLogin), Reply(334), Reply(334), Reply(235)]) ==
      Told(c.(authenticated := true, auth := AuthPlain), ReadyState,
        [LoginCommand, Got(AuthLogin0, 334), LoginUser, Got(AuthLogin1User, 334), LoginPass, Got(AuthLogin2Pass, 235)])
  {
    hide Step, Told;
    PlainSucceeds(c);
    StepwiseSucceeds(c);
    OneInput(c, Login(AuthPlain));
    ThenInput(c, [Login(AuthPlain)], Reply(235));
    assert [Login(AuthPlain)] + [Reply(235)] == [Login(AuthPlain), Reply(235)];
    var i1, i2 := [Login(AuthLogin)], [Login(AuthLogin), Reply(334)];
    var i3 := [Login(AuthLogin), Reply(334), Reply(334)];
    OneInput(c, Login(AuthLogin));
    ThenInput(c, i1, Reply(334));
    ThenInput(c, i2, Reply(334));
    ThenInput(c, i3, Reply(235));
    assert i1 + [Reply(334)] == i2 && i2 + [Reply(334)] == i3;
    assert i3 + [Reply(235)] == [Login(AuthLogin), Reply(334), Reply(334), Reply(235)];
  }

  lemma {:induction false} PlainSucceeds(c: Client)
    requires c.ready && !c.authenticated
    ensures Step(Step(c, Login(AuthPlain)), Reply(235)) ==
      Told(c.(authenticated := true, auth := AuthPlain), ReadyState, [PlainCredentials, Got(AuthPlain0, 235)])
  {
    hide Step;
    LoginBegins(c, AuthPlain);
    LoginEnds(Step(c, Login(AuthPlain)));
  }

  lemma {:induction false} StepwiseSucceeds(c: Client)
    requires c.ready && !c.authenticated
    ensures Step(Step(Step(Step(c, Login(AuthLogin)), Reply(334)), Reply(334)), Reply(235)) ==
      Told(c.(authenticated := true, auth := AuthPlain), ReadyState,
        [LoginCommand, Got(AuthLogin0, 334), LoginUser, Got(AuthLogin1User, 334), LoginPass, Got(AuthLogin2Pass, 235)])
  {
    hide Step;
    LoginBegins(c, AuthLogin);
    var c1 := Step(c, Login(AuthLogin));
    LoginGoesOn(c1);
    var c2 := Step(c1, Reply(334));
    LoginGoesOn(c2);
    LoginEnds(Step(c2, Reply(334)));
  }

  // ---- Reset and quit ----

  /** A granted RSET leaves a ready client as it was; QUIT and its 221 hang up from any state. */
  lemma {:induction false} ResetAndQuit(c: Client)
    ensures c.ready ==> Continue(c, [Reset, Reply(250)]) == Told(c, ReadyState, [Rset, Got(ResetState, 250)])
    ensures Continue(c, [QuitNow, Reply(221)]) ==
      Told(c.(ready := false), DisconnectingState, [Quit, Got(QuittingState, 221), HangUp])
  {
    hide Step, Told;
    ResetGranted(c);
    QuitGranted(c);
    OneInput(c, Reset);
    ThenInput(c, [Reset], Reply(250));
    assert [Reset] + [Reply(250)] == [Reset, Reply(250)];
    OneInput(c, QuitNow);
    ThenInput(c, [QuitNow], Reply(221));
    assert [QuitNow] + [Reply(221)] == [QuitNow, Reply(221)];
  }

  lemma {:induction false} ResetGranted(c: Client)
    ensures c.ready ==> Step(Step(c, Reset), Reply(250)) == Told(c, ReadyState, [Rset, Got(ResetState, 250)])
  {
    hide Entered;
    ToldNothing(c);
    Enters(c, ResetState, []);
    if c.ready {
      assert Step(c, Reset) == Told(c, ResetState, [Rset]);
      hide Step;
      ReplyTakes(Step(c, Reset), 250);
    }
  }

  lemma {:induction false} QuitGranted(c: Client)
    ensures Step(Step(c, QuitNow), Reply(221)) ==
      Told(c.(ready := false), DisconnectingState, [Quit, Got(QuittingState, 221), HangUp])
  {
    hide Entered;
    ToldNothing(c);
    Enters(c, QuittingState, []);
    assert Step(c, QuitNow) == Told(c, QuittingState, [Quit]);
    hide Step;
    QuitTaken(Step(c, QuitNow));
  }

  lemma {:induction false} QuitTaken(c: Client)
    requires c.state == QuittingState
    ensures Step(c, Reply(221)) == Told(c.(ready := false), DisconnectingState, [Got(QuittingState, 221), HangUp])
  {
    hide Step;
    ReplyTakes(c, 221);
  }

  // ---- Sending a mail ----

  /** What has been said and heard while recipient k, or the sender for 0, is being judged. */
  predicate Addressing(c: Client, k: nat) {
    && k <= |c.email.Recipients()| && c.next == k
    && c.state == (if k == 0 then Mail0From else Mail2Rcpt)
    && c.mail == if k == 0 then [MailFrom(c.email.sender)]
                 else Opening(c.email, k - 1) + [RcptTo(c.email.Recipients()[k - 1])]
  }

  lemma {:induction false} Judged(c: Client, k: nat)
    requires Addressing(c, k)
    ensures c.mail + [Got(c.state, 250)] == Opening(c.email, k)
  {
    hide Email.Recipients, Accepted;
    if k == 0 {
      NobodyYet(c.email);
    } else {
      OneMoreAccepted(c.email, k - 1);
    }
  }

  lemma NobodyYet(email: Email)
    ensures Opening(email, 0) == [MailFrom(email.sender), Got(Mail0From, 250)]
  {
    hide Email.Recipients;
    assert email.Recipients()[..0] == [];
  }

  lemma {:induction false} MailBegins(c: Client, email: Email)
    requires c.ready
    ensures var d := Step(c, SendMail(email)); Addressing(d, 0) && d.email == email
  {
    hide Email.Recipients, Opening;
    assert [] + [MailFrom(email.sender)] == [MailFrom(email.sender)];
  }

  lemma {:induction false} NextJudged(c: Client, k: nat)
    requires Addressing(c, k)
    ensures var d := Step(c, Reply(250));
      && d.email == c.email
      && (k < |c.email.Recipients()| ==> Addressing(d, k + 1))
      && (k == |c.email.Recipients()| ==> d.state == Mail3Data && d.mail == Opening(c.email, k) + [Data])
  {
    hide Email.Recipients, Opening, Step;
    Judged(c, k);
    AddressAccepted(c);
  }

  lemma {:induction false} ContentGoesWell(c: Client)
    requires c.state == Mail3Data
    ensures Step(Step(c, Reply(354)), Reply(250)) ==
      Told(c.(mailSent := true), ReadyState,
        [Got(Mail3Data, 354), Body(c.email.content), Got(Mail4SendData, 250)])
  {
    hide Step;
    ContentAsked(c);
    ContentTaken(Step(c, Reply(354)));
  }

  lemma {:induction false} ContentAsked(c: Client)
    requires c.state == Mail3Data
    ensures Step(c, Reply(354)) == Told(c, Mail4SendData, [Got(Mail3Data, 354), Body(c.email.content)])
  {
    hide Step, Expected, Rest, Said, Flags;
    ContentRow(c);
    ReplyTakes(c, 354);
    assert [Got(Mail3Data, 354)] + [Body(c.email.content)] == [Got(Mail3Data, 354), Body(c.email.content)];
  }

  lemma ContentRow(c: Client)
    ensures Expected(Mail3Data, c.connectionType) == Expect(354, MailSendingError, Mail4SendData)
    ensures Rest(Mail4SendData, c.auth) == Mail4SendData && Flags(c, Mail4SendData) == c
    ensures Said(Mail4SendData, c.connectionType == SslConnection, c.email) == [Body(c.email.content)]
  {
  }

  lemma {:induction false} ContentTaken(c: Client)
    requires c.state == Mail4SendData
    ensures Step(c, Reply(250)) == Told(c.(mailSent := true), ReadyState, [Got(Mail4SendData, 250)])
  {
    hide Step;
    ReplyTakes(c, 250);
  }

  lemma {:induction false} RestGoesWell(c: Client, k: nat)
    requires Addressing(c, k)
    ensures var d := Continue(c, Acceptance(|c.email.Recipients()| - k));
      d.state == ReadyState && d.mailSent && d.mail == Transcript(c.email)
    decreases |c.email.Recipients()| - k
  {
    hide Email.Recipients, Step, Opening, Addressing, Told;
    assert k <= |c.email.Recipients()| by { Bounded(c, k); }
    var n := |c.email.Recipients()|;
    var d := Step(c, Reply(250));
    NextJudged(c, k);
    if k < n {
      RestGoesWell(d, k + 1);
      assert Acceptance(n - k)[1..] == Acceptance(n - k - 1);
    } else {
      LastReplies(c);
      ContentGoesWell(d);
      ContentLog(d);
    }
  }

  lemma Bounded(c: Client, k: nat)
    requires Addressing(c, k)
    ensures k <= |c.email.Recipients()|
  {
  }

  lemma {:induction false} LastReplies(c: Client)
    ensures Continue(c, Acceptance(0)) == Step(Step(Step(c, Reply(250)), Reply(354)), Reply(250))
  {
    hide Step;
    OneInput(c, Reply(250));
    ThenInput(c, [Reply(250)], Reply(354));
    ThenInput(c, [Reply(250)] + [Reply(354)], Reply(250));
    assert [Reply(250)] + [Reply(354)] + [Reply(250)] == Acceptance(0);
  }

  lemma {:induction false} ContentLog(d: Client)
    requires d.mail == Opening(d.email, |d.email.Recipients()|) + [Data]
    ensures var e := Told(d.(mailSent := true), ReadyState,
        [Got(Mail3Data, 354), Body(d.email.content), Got(Mail4SendData, 250)]);
      e.state == ReadyState && e.mailSent && e.mail == Transcript(d.email)
  {
    hide Opening, Email.Recipients;
  }

  /** From any ready client, sendMail to a server that accepts says exactly the transcript. */
  lemma {:induction false} MailGoesWell(c: Client, email: Email)
    requires c.ready
    ensures var d := Continue(Step(c, SendMail(email)), Acceptance(|email.Recipients()|));
      d.state == ReadyState && d.mailSent && d.mail == Transcript(email)
  {
    hide Email.Recipients, Step, Addressing, Transcript;
    MailBegins(c, email);
    RestGoesWell(Step(c, SendMail(email)), 0);
  }

  /** One recipient of each kind: To, then Cc, then Bcc. */
  lemma {:induction false} OneOfEach(sender: string, a: string, b: string, d: string, content: string)
    ensures Transcript(Email(sender, [a], [b], [d], content)) ==
      [MailFrom(sender), Got(Mail0From, 250),
       RcptTo(a), Got(Mail2Rcpt, 250), RcptTo(b), Got(Mail2Rcpt, 250), RcptTo(d), Got(Mail2Rcpt, 250),
       Data, Got(Mail3Data, 354), Body(content), Got(Mail4SendData, 250)]
  {
    var email := Email(sender, [a], [b], [d], content);
    assert email.Recipients() == [a, b, d];
    hide Email.Recipients;
    assert [a, b, d][..3] == [a, b, d] && [a, b, d][..2] == [a, b] && [a, b][..1] == [a] && [a][..0] == [];
    assert Accepted([]) == [] && Accepted([a]) == [] + [RcptTo(a), Got(Mail2Rcpt, 250)];
    assert Accepted([a, b]) == Accepted([a]) + [RcptTo(b), Got(Mail2Rcpt, 250)];
    assert Accepted([a, b, d]) == Accepted([a, b]) + [RcptTo(d), Got(Mail2Rcpt, 250)];
  }

  // ---- Any other reply ----

  predicate Waits(s: ClientState) {
    s in {ConnectedState, ResetState, EhloState, QuittingState, Tls0StartTls, Tls2Ehlo,
          AuthPlain0, AuthLogin0, AuthLogin1User, AuthLogin2Pass,
          Mail0From, Mail2Rcpt, Mail3Data, Mail4SendData}
  }

  /** The one code each state takes. */
  predicate Takes(s: ClientState, code: int) {
    && (s in {ConnectedState, Tls0StartTls} ==> code == 220)
    && (s == QuittingState ==> code == 221)
    && (s in {AuthPlain0, AuthLogin2Pass} ==> code == 235)
    && (s in {AuthLogin0, AuthLogin1User} ==> code == 334)
    && (s == Mail3Data ==> code == 354)
    && (s in {ResetState, EhloState, Tls2Ehlo, Mail0From, Mail2Rcpt, Mail4SendData} ==> code == 250)
  }

  /** A reply that a state does not take changes nothing but the log and is reported: 4xx as a
      server error and 5xx as a client error everywhere, others by what the state is about.
      A state that waits for nothing reports only 4xx and 5xx. */
  lemma {:induction false} OtherReplies(c: Client, code: int)
    requires Waits(c.state) && (400 <= code < 600 || !Takes(c.state, code))
    ensures var heard := c.Say(Got(c.state, code));
      Step(c, Reply(code)) ==
        if 400 <= code < 500 then heard.Say(Failed(ServerError))
        else if 500 <= code < 600 then heard.Say(Failed(ClientError))
        else if c.state in {Mail0From, Mail2Rcpt, Mail3Data, Mail4SendData} then heard.Say(Failed(MailSendingError))
        else if c.state in {AuthPlain0, AuthLogin0, AuthLogin1User, AuthLogin2Pass} then
          heard.Say(Failed(AuthenticationError))
        else if c.state == QuittingState then heard.Say(Failed(ClientError))
        else heard.Say(Failed(ServerError))
  {
    hide Entered;
  }

  lemma {:induction false} UnawaitedReplies(c: Client, code: int)
    requires !Waits(c.state)
    ensures var heard := c.Say(Got(c.state, code));
      Step(c, Reply(code)) ==
        if 400 <= code < 500 then heard.Say(Failed(ServerError))
        else if 500 <= code < 600 then heard.Say(Failed(ClientError))
        else heard
  {
    hide Entered;
  }

  /** Calls and socket events that find the client in the wrong state leave it there. */
  lemma {:induction false} CallsIgnored(c: Client, email: Email, method': AuthMethod)
    ensures !c.ready ==> Step(c, SendMail(email)) == Step(c, Reset) == c
    ensures !c.ready || c.authenticated ==> Step(c, Login(method')) == c.(auth := method')
    ensures c.state != UnconnectedState ==> Step(c, ConnectToHost) == c
    ensures c.state != Tls1Encrypt ==> Step(c, SocketEncrypted) == c.Say(Secured)
    ensures Step(c, SocketFailed) == c.Say(Failed(SocketError))
  {
    hide Entered;
  }

  /** A lost connection ends the session, in whatever state: only another connectToHost goes on. */
  lemma {:induction false} ConnectionLost(c: Client)
    ensures Step(c, SocketUnconnected) ==
      c.(ready := false, authenticated := false, session := [], state := UnconnectedState)
  {
    hide NextRecipient;
    assert c.mail + [] == c.mail;
  }
}

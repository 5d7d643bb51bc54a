/** The class of smtpclient.cpp: state changes that call one another, two recipient
    iterators, and the socket's and the user's entry points.  Each entry point amounts to
    one step of the protocol in Smtp.dfy.

    Signal handlers do not call back into the client here, and what a signal carries is
    the Failed event alone.
  */
module SmtpClient {
  import opened Smtp
  import opened SmtpReplies
  import opened SmtpSession

  class Connection {
    const connectionType: ConnectionType
    var state: ClientState
    var isReadyConnected: bool
    var isAuthenticated: bool
    var isMailSent: bool
    var isReset: bool
    var authMethod: AuthMethod
    var email: Email
    /** 0 before the first list, 1 To, 2 Cc, 3 Bcc, 4 after the last. */
    var rcptType: nat
    var addressList: seq<string>
    var addressIt: nat
    var tempResponse: string
    var responseText: string
    var responseCode: int
    ghost var session: seq<Event>
    ghost var mail: seq<Event>

    ghost function Abstract(): Client
      reads `state, `isReadyConnected, `isAuthenticated, `isMailSent, `authMethod
      reads `email, `rcptType, `addressIt, `session, `mail
    {
      Client(state, connectionType, isReadyConnected, isAuthenticated, isMailSent, authMethod,
        email, Position(email, rcptType, addressIt), session, mail)
    }

    /** The iterators point into the list that is being sent, and only waiting for the
        reply to MAIL FROM has not chosen one yet. */
    ghost predicate Iterators()
      reads `state, `email, `rcptType, `addressList, `addressIt
    {
      && ListChosen(email, rcptType, addressList, addressIt)
      && (state == Mail0From ==> rcptType == 0)
      && (state == Mail2Rcpt ==> 1 <= rcptType <= 3)
    }

    ghost predicate Valid()
      reads `state, `isReadyConnected, `isAuthenticated, `isMailSent, `isReset, `authMethod
      reads `email, `rcptType, `addressList, `addressIt, `session, `mail
    {
      Iterators() && Invariant(Abstract()) && !isReset
    }

    constructor (connectionType: ConnectionType)
      ensures Valid() && Abstract() == NewClient(connectionType)
    {
      NewClientInvariant(connectionType);
      this.connectionType := connectionType;
      state := UnconnectedState;
      isReadyConnected, isAuthenticated, isMailSent, isReset := false, false, false, false;
      authMethod := AuthPlain;
      email := Email("", [], [], [], "");
      rcptType, addressList, addressIt := 0, [], 0;
      tempResponse, responseText, responseCode := "", "", 0;
      session, mail := [], [];
    }

    method Say(e: Event)
      modifies `session, `mail
      ensures session == old(session) + [e] && mail == old(mail) + [e]
    {
      session, mail := session + [e], mail + [e];
    }

    /** The iterators are where entering s finds them. */
    ghost predicate MayChangeTo(s: ClientState)
      reads `email, `rcptType, `addressList, `addressIt
    {
      && ListChosen(email, rcptType, addressList, addressIt)
      && (s == MailSendingState || s == Mail0From ==> rcptType == 0)
      && (s == Mail1RcptInit ==> rcptType <= 3 && (rcptType == 0 || addressIt == |addressList|))
      && (s == Mail2Rcpt ==> 1 <= rcptType <= 3)
    }

    method ChangeState(s: ClientState)
      requires MayChangeTo(s)
      modifies `state, `isReadyConnected, `isAuthenticated, `isMailSent, `authMethod
      modifies `rcptType, `addressList, `addressIt, `session, `mail
      ensures Abstract() == Entered(old(Abstract()), s) && Iterators()
      decreases Depth(s, rcptType)
    {
      hide Email.Recipients, Entered, Said, Depth, ListChosen, Position, NextRecipient;
      ghost var c := Abstract();
      StateIgnored(c, s);
      state := s;
      if s == Mail1RcptInit {
        RecipientEntry(c, s);
        NextList();
      } else if s == Mail2Rcpt {
        RecipientEntry(c, s);
        NextAddress();
      } else if Begins(s) {
        Begin(s);
      } else if Finishes(s) {
        Finish(s);
      } else {
        Settle(s);
      }
    }

    /** The states that pass to no other. */
    method Settle(s: ClientState)
      requires MayChangeTo(s) && state == s && !Begins(s) && !Finishes(s) && s != Mail1RcptInit && s != Mail2Rcpt
      modifies `isReadyConnected, `isAuthenticated, `session, `mail
      ensures Abstract() == Entered(old(Abstract()), s) && Iterators()
      decreases 0, 0
    {
      hide Email.Recipients, Entered, Said, ListChosen, Position;
      ghost var c := Abstract();
      if s == UnconnectedState {
        isReadyConnected := false;
        isAuthenticated := false;
        session := [];
        Forgotten(c);
      } else {
        SendCommand(s);
        PlainEntry(c, s);
      }
    }

    /** The states that begin something and pass to its first state. */
    method Begin(s: ClientState)
      requires MayChangeTo(s) && state == s && Begins(s)
      modifies `state, `isReadyConnected, `isAuthenticated, `isMailSent, `authMethod
      modifies `rcptType, `addressList, `addressIt, `session, `mail
      ensures Abstract() == Entered(old(Abstract()), s) && Iterators()
      decreases Depth(s, rcptType), 0
    {
      hide Email.Recipients, Entered, Depth, ListChosen, Position;
      TransientDepths(rcptType);
      ghost var c := Abstract();
      match s
      case AuthenticatingState =>
        isAuthenticated := false;
        PassAuth(c);
        ChangeState(if authMethod == AuthPlain then AuthPlain0 else AuthLogin0);
      case MailSendingState =>
        isMailSent := false;
        PassMail(c);
        ChangeState(Mail0From);
      case TlsState =>
        PassTls(c);
        ChangeState(Tls0StartTls);
    }

    /** The states that end something and pass to ReadyState. */
    method Finish(s: ClientState)
      requires MayChangeTo(s) && state == s && Finishes(s)
      modifies `state, `isReadyConnected, `isAuthenticated, `isMailSent, `authMethod
      modifies `rcptType, `addressList, `addressIt, `session, `mail
      ensures Abstract() == Entered(old(Abstract()), s) && Iterators()
      decreases Depth(s, rcptType), 0
    {
      hide Email.Recipients, Entered, Depth, ListChosen, Position;
      TransientDepths(rcptType);
      ghost var c := Abstract();
      match s
      case ReadyConnected =>
        isReadyConnected := true;
        PassReady(c);
        ChangeState(ReadyState);
      case ReadyEncrypted =>
        PassEncrypted(c);
        ChangeState(ReadyConnected);
      case ReadyAuthenticated =>
        isAuthenticated := true;
        authMethod := AuthPlain;
        PassAuthenticated(c);
        ChangeState(ReadyState);
      case ReadyMailSent =>
        isMailSent := true;
        PassSent(c);
        ChangeState(ReadyState);
    }

    /** The states that only talk to the socket. */
    method SendCommand(s: ClientState)
      requires Plain(s)
      modifies `session, `mail, `isReadyConnected
      ensures session == old(session) + Said(s, connectionType == SslConnection, email)
      ensures mail == old(mail) + Said(s, connectionType == SslConnection, email)
      ensures isReadyConnected == (old(isReadyConnected) && s != DisconnectingState)
    {
      hide Email.Recipients;
      match s
      case ConnectingState => Say(Dial(connectionType == SslConnection));
      case QuittingState => Say(Quit);
      case DisconnectingState =>
        Say(HangUp);
        isReadyConnected := false;
      case ResetState => Say(Rset);
      case EhloState => Say(Ehlo);
      case Tls0StartTls => Say(StartTls);
      case Tls1Encrypt => Say(Handshake);
      case Tls2Ehlo => Say(Ehlo);
      case AuthPlain0 => Say(PlainCredentials);
      case AuthLogin0 => Say(LoginCommand);
      case AuthLogin1User => Say(LoginUser);
      case AuthLogin2Pass => Say(LoginPass);
      case Mail0From => Say(MailFrom(email.sender));
      case Mail3Data => Say(Data);
      case Mail4SendData => Say(Body(email.content));
      case _ =>
    }

    method NextList()
      requires state == Mail1RcptInit && MayChangeTo(Mail1RcptInit)
      modifies `state, `isReadyConnected, `isAuthenticated, `isMailSent, `authMethod
      modifies `rcptType, `addressList, `addressIt, `session, `mail
      ensures Abstract() == NextRecipient(old(Abstract())) && Iterators()
      decreases Depth(Mail1RcptInit, rcptType), 1
    {
      hide Email.Recipients, Entered, Position, AddressList, NextRecipient, Depth, ListChosen, Iterators;
      MailDepths(rcptType);
      ghost var c, t := Abstract(), rcptType;
      rcptType := rcptType + 1;
      MailDepths(rcptType);
      if rcptType == 4 {
        LastListDone(email, addressList, addressIt);
        EndLists(c);
      } else {
        ListDone(email, t, addressList, addressIt);
        BeginList(c);
      }
    }

    method EndLists(ghost c: Client)
      requires rcptType == 4 && state == Mail1RcptInit && ListChosen(email, 4, addressList, addressIt)
      requires Abstract() == c && c.next == |c.email.Recipients()|
      modifies `state, `isReadyConnected, `isAuthenticated, `isMailSent, `authMethod
      modifies `rcptType, `addressList, `addressIt, `session, `mail
      ensures Abstract() == NextRecipient(c) && Iterators()
      decreases Depth(Mail1RcptInit, rcptType), 0
    {
      hide Email.Recipients, Entered, Position, AddressList, NextRecipient, Depth, ListChosen;
      MailDepths(4);
      AllPassed(c);
      ChangeState(Mail3Data);
    }

    method BeginList(ghost c: Client)
      requires 1 <= rcptType <= 3 && state == Mail1RcptInit
      requires Abstract().(next := Position(email, rcptType, 0)) == c
      modifies `state, `isReadyConnected, `isAuthenticated, `isMailSent, `authMethod
      modifies `rcptType, `addressList, `addressIt, `session, `mail
      ensures Abstract() == NextRecipient(c) && Iterators()
      decreases Depth(Mail1RcptInit, rcptType - 1), 0
    {
      hide Email.Recipients, Entered, Position, AddressList, NextRecipient, Depth;
      MailDepths(rcptType);
      MailDepths(rcptType - 1);
      addressList := AddressList(email, rcptType);
      addressIt := 0;
      RecipientEntry(c, Mail2Rcpt);
      ChangeState(Mail2Rcpt);
    }

    method SendAddress()
      requires state == Mail2Rcpt && MayChangeTo(Mail2Rcpt) && addressIt < |addressList|
      modifies `addressIt, `session, `mail
      ensures Abstract() == NextRecipient(old(Abstract())) && Iterators()
      decreases 0, 0
    {
      hide Email.Recipients, Position, AddressList, NextRecipient, ListChosen;
      AddressLeft(email, rcptType, addressList, addressIt);
      AddressIsNext(email, rcptType, addressIt);
      Addressed(Abstract());
      Say(RcptTo(addressList[addressIt]));
      addressIt := addressIt + 1;
    }

    method NextAddress()
      requires state == Mail2Rcpt && MayChangeTo(Mail2Rcpt)
      modifies `state, `isReadyConnected, `isAuthenticated, `isMailSent, `authMethod
      modifies `rcptType, `addressList, `addressIt, `session, `mail
      ensures Abstract() == NextRecipient(old(Abstract())) && Iterators()
      decreases Depth(Mail2Rcpt, rcptType), 0
    {
      hide Email.Recipients, Entered, Position, AddressList, Depth, NextRecipient;
      MailDepths(rcptType);
      ghost var c := Abstract();
      if addressIt != |addressList| {
        SendAddress();
      } else {
        RecipientEntry(c, Mail1RcptInit);
        assert Abstract() == c;
        ChangeState(Mail1RcptInit);
      }
    }

    // ---- The user's calls ----

    method ConnectToHost()
      requires Valid()
      modifies this
      ensures Valid() && Abstract() == Step(old(Abstract()), Input.ConnectToHost)
    {
      hide Invariant, Entered, Depth, Position, ListChosen;
      StepKeepsInvariant(Abstract(), Input.ConnectToHost);
      if state != UnconnectedState { return; }
      ChangeState(ConnectingState);
    }

    method Login(auth: AuthMethod)
      requires Valid()
      modifies this
      ensures Valid() && Abstract() == Step(old(Abstract()), Input.Login(auth))
    {
      hide Invariant, Entered, Depth, Position, ListChosen;
      StepKeepsInvariant(Abstract(), Input.Login(auth));
      authMethod := auth;
      if !isReadyConnected || isAuthenticated { return; }
      ChangeState(AuthenticatingState);
    }

    method SendMail(message: Email)
      requires Valid()
      modifies this
      ensures Valid() && Abstract() == Step(old(Abstract()), Input.SendMail(message))
    {
      hide Invariant, Entered, Depth;
      StepKeepsInvariant(Abstract(), Input.SendMail(message));
      if !isReadyConnected { return; }
      ghost var c := Abstract();
      isMailSent := false;
      email := message;
      rcptType := 0;
      mail := [];
      MailStarts(c.(email := message, next := 0, mail := []));
      ChangeState(MailSendingState);
    }

    method QuitServer()
      requires Valid()
      modifies this
      ensures Valid() && Abstract() == Step(old(Abstract()), QuitNow)
    {
      hide Invariant, Entered, Depth, Position, ListChosen;
      StepKeepsInvariant(Abstract(), QuitNow);
      ChangeState(QuittingState);
    }

    /** Success is announced by a signal only: nothing ever sets isReset, so it stays false. */
    method Reset()
      requires Valid()
      modifies this
      ensures Valid() && Abstract() == Step(old(Abstract()), Input.Reset)
    {
      hide Invariant, Entered, Depth, Position, ListChosen;
      StepKeepsInvariant(Abstract(), Input.Reset);
      if !isReadyConnected { return; }
      isReset := false;
      ChangeState(ResetState);
    }

    // ---- The socket's signals ----

    method SocketStateChanged(connected: bool)
      requires Valid()
      modifies this
      ensures Valid()
      ensures Abstract() == Step(old(Abstract()), if connected then SocketConnected else SocketUnconnected)
    {
      hide Invariant, Entered, Depth, Position, ListChosen;
      StepKeepsInvariant(Abstract(), if connected then SocketConnected else SocketUnconnected);
      ChangeState(if connected then ConnectedState else UnconnectedState);
    }

    method SocketErrorOccurred()
      requires Valid()
      modifies `session, `mail
      ensures Valid() && Abstract() == Step(old(Abstract()), SocketFailed)
    {
      hide Invariant, Position, ListChosen;
      StepKeepsInvariant(Abstract(), SocketFailed);
      Say(Failed(SocketError));
    }

    method SocketEncryptedNow()
      requires Valid()
      modifies this
      ensures Valid() && Abstract() == Step(old(Abstract()), SocketEncrypted)
    {
      hide Invariant, Entered, Depth, Position, ListChosen;
      StepKeepsInvariant(Abstract(), SocketEncrypted);
      Say(Secured);
      if state == Tls1Encrypt {
        ChangeState(Tls2Ehlo);
      }
    }

    /** A reply code other than the expected one is an error and changes no state. */
    method Await(code: int, error: SmtpError, next: ClientState)
      requires Iterators() && MayChangeTo(next)
      requires Expected(state, connectionType) == Expect(code, error, next)
      modifies `state, `isReadyConnected, `isAuthenticated, `isMailSent, `authMethod
      modifies `rcptType, `addressList, `addressIt, `session, `mail
      ensures Abstract() == Answered(old(Abstract()), responseCode) && Iterators()
    {
      hide Email.Recipients, Entered, Depth, Position, ListChosen, Expected;
      if responseCode != code {
        Say(Failed(error));
        return;
      }
      ChangeState(next);
    }

    /** The iterators are ready for whatever the awaited reply leads to. */
    lemma MayAnswer()
      requires Iterators()
      ensures Expected(state, connectionType).Expect? ==> MayChangeTo(Expected(state, connectionType).next)
    {
      hide ListChosen;
    }

    lemma NotAwaited()
      ensures Expected(state, connectionType).Nothing? ==> Answered(Abstract(), responseCode) == Abstract()
    {
      hide Expected, Entered, Position;
    }

    method ProcessResponse()
      requires Iterators()
      modifies `state, `isReadyConnected, `isAuthenticated, `isMailSent, `authMethod
      modifies `rcptType, `addressList, `addressIt, `session, `mail
      ensures Abstract() == Answered(old(Abstract()), responseCode) && Iterators()
    {
      hide Entered, Depth, Position, ListChosen, Answered, Abstract, Iterators, MayChangeTo;
      MayAnswer();
      NotAwaited();
      match state
      case ConnectedState => Await(220, ServerError, EhloState);
      case ResetState => Await(250, ServerError, ReadyState);
      case EhloState =>
        Await(250, ServerError, if connectionType != TlsConnection then ReadyConnected else TlsState);
      case QuittingState => Await(221, ClientError, DisconnectingState);
      case Tls0StartTls => Await(220, ServerError, Tls1Encrypt);
      case Tls2Ehlo => Await(250, ServerError, ReadyEncrypted);
      case AuthPlain0 => Await(235, AuthenticationError, ReadyAuthenticated);
      case AuthLogin0 => Await(334, AuthenticationError, AuthLogin1User);
      case AuthLogin1User => Await(334, AuthenticationError, AuthLogin2Pass);
      case AuthLogin2Pass => Await(235, AuthenticationError, ReadyAuthenticated);
      case Mail0From => Await(250, MailSendingError, Mail1RcptInit);
      case Mail2Rcpt => Await(250, MailSendingError, Mail2Rcpt);
      case Mail3Data => Await(354, MailSendingError, Mail4SendData);
      case Mail4SendData => Await(250, MailSendingError, ReadyMailSent);
      case _ =>
    }

    /** Takes all the lines there are; only the last of them can end a reply, so that a reply
        before it is missed. */
    method SocketReadyRead(isOpen: bool, lines: seq<string>)
      requires Valid()
      modifies this
      ensures Valid()
      ensures !isOpen ==> Abstract() == Step(old(Abstract()), SocketFailed) && tempResponse == old(tempResponse)
      ensures isOpen ==> Abstract() == LinesRead(old(Abstract()), lines)
      ensures isOpen ==> (Abstract() == AllReplied(old(Abstract()), Codes(lines)) <==> AtMostOneReply(lines))
      ensures isOpen && EndsReply(lines) ==> responseText == old(tempResponse) + Joined(lines) && tempResponse == ""
      ensures isOpen && !EndsReply(lines) ==> tempResponse == old(tempResponse) + Joined(lines)
    {
      hide *;
      if !isOpen {
        SocketErrorOccurred();
        return;
      }
      EveryReplySeenExactly(Abstract(), lines);
      LastLineDecides(Abstract(), lines);
      var responseLine := ReadLines(lines);
      if |responseLine| > 3 && responseLine[3] == ' ' {
        responseText := tempResponse;
        tempResponse := "";
        responseCode := ToInt(responseLine[..3]);
        Respond();
      }
    }

    method ReadLines(lines: seq<string>) returns (responseLine: string)
      modifies `tempResponse
      ensures tempResponse == old(tempResponse) + Joined(lines)
      ensures responseLine == if lines == [] then "" else lines[|lines| - 1]
    {
      responseLine := "";
      var i := 0;
      assert lines[..0] == [];
      while i < |lines|
        invariant 0 <= i <= |lines| && tempResponse == old(tempResponse) + Joined(lines[..i])
        invariant responseLine == if i == 0 then "" else lines[i - 1]
      {
        responseLine := lines[i];
        tempResponse := tempResponse + responseLine;
        JoinedNext(lines, i);
        i := i + 1;
      }
      assert lines[..i] == lines;
    }

    method Respond()
      requires Valid()
      modifies `state, `isReadyConnected, `isAuthenticated, `isMailSent, `authMethod
      modifies `rcptType, `addressList, `addressIt, `session, `mail
      ensures Valid() && Abstract() == Step(old(Abstract()), Reply(responseCode))
    {
      hide Answered, Position, ListChosen, Invariant, Step;
      StepKeepsInvariant(Abstract(), Reply(responseCode));
      ReplyCases(Abstract(), responseCode);
      Say(Got(state, responseCode));
      if 400 <= responseCode < 500 {
        Say(Failed(ServerError));
        return;
      }
      if 500 <= responseCode < 600 {
        Say(Failed(ClientError));
        return;
      }
      ProcessResponse();
    }
  }

  function Answered(c: Client, code: int): Client {
    match Expected(c.state, c.connectionType)
    case Nothing => c
    case Expect(wanted, error, next) => if code == wanted then Entered(c, next) else c.Say(Failed(error))
  }

  lemma ReplyCases(c: Client, code: int)
    ensures var heard := c.Say(Got(c.state, code));
      Step(c, Reply(code)) ==
        if 400 <= code < 500 then heard.Say(Failed(ServerError))
        else if 500 <= code < 600 then heard.Say(Failed(ClientError))
        else Answered(heard, code)
  {
    hide Expected, Entered;
  }

  function Joined(lines: seq<string>): string {
    if lines == [] then "" else Joined(lines[..|lines| - 1]) + lines[|lines| - 1]
  }

  lemma JoinedNext(lines: seq<string>, i: nat)
    requires i < |lines|
    ensures Joined(lines[..i + 1]) == Joined(lines[..i]) + lines[i]
  {
    assert lines[..i + 1][..i] == lines[..i];
  }

  // ---- The iterators as one position in the list of recipients ----

  function AddressList(email: Email, rcptType: nat): seq<string> {
    match rcptType
    case 1 => email.to
    case 2 => email.cc
    case 3 => email.bcc
    case _ => []
  }

  ghost predicate ListChosen(email: Email, rcptType: nat, addressList: seq<string>, addressIt: nat) {
    && rcptType <= 4
    && (1 <= rcptType <= 3 ==> addressList == AddressList(email, rcptType) && addressIt <= |addressList|)
  }

  /** How many recipients the iterators have passed. */
  ghost function Position(email: Email, rcptType: nat, addressIt: nat): nat {
    match rcptType
    case 0 => 0
    case 1 => addressIt
    case 2 => |email.to| + addressIt
    case 3 => |email.to| + |email.cc| + addressIt
    case _ => |email.Recipients()|
  }

  /** At the end of one list the iterators stand where the next list begins. */
  lemma ListDone(email: Email, rcptType: nat, list: seq<string>, addressIt: nat)
    requires ListChosen(email, rcptType, list, addressIt)
    requires rcptType < 3 && (rcptType == 0 || addressIt == |list|)
    ensures Position(email, rcptType, addressIt) == Position(email, rcptType + 1, 0)
    ensures ListChosen(email, rcptType + 1, AddressList(email, rcptType + 1), 0)
  {
  }

  lemma LastListDone(email: Email, list: seq<string>, addressIt: nat)
    requires ListChosen(email, 3, list, addressIt) && addressIt == |list|
    ensures Position(email, 4, addressIt) == |email.Recipients()| == Position(email, 3, addressIt)
    ensures ListChosen(email, 4, list, addressIt)
  {
  }

  lemma AddressIsNext(email: Email, rcptType: nat, addressIt: nat)
    requires 1 <= rcptType <= 3 && addressIt < |AddressList(email, rcptType)|
    ensures Position(email, rcptType, addressIt) < |email.Recipients()|
    ensures email.Recipients()[Position(email, rcptType, addressIt)] == AddressList(email, rcptType)[addressIt]
    ensures Position(email, rcptType, addressIt + 1) == Position(email, rcptType, addressIt) + 1
  {
  }

  lemma AddressLeft(email: Email, rcptType: nat, list: seq<string>, addressIt: nat)
    requires ListChosen(email, rcptType, list, addressIt) && 1 <= rcptType <= 3 && addressIt < |list|
    ensures list == AddressList(email, rcptType) && ListChosen(email, rcptType, list, addressIt + 1)
  {
    hide AddressList;
  }

  lemma Addressed(c: Client)
    requires c.next < |c.email.Recipients()|
    ensures NextRecipient(c) ==
      c.(next := c.next + 1).Go(Mail2Rcpt).Say(RcptTo(c.email.Recipients()[c.next]))
  {
    hide Email.Recipients;
  }

  /** When the third list is done the next thing is DATA. */
  lemma AllPassed(c: Client)
    requires c.next == |c.email.Recipients()|
    ensures NextRecipient(c) == Entered(c, Mail3Data)
  {
    hide Email.Recipients;
  }

  lemma RecipientEntry(c: Client, s: ClientState)
    requires s == Mail1RcptInit || s == Mail2Rcpt
    ensures Entered(c, s) == NextRecipient(c) == NextRecipient(c.(state := s))
  {
    hide Email.Recipients;
  }

  /** How deep the state changes below entering s go. */
  ghost function Depth(s: ClientState, rcptType: nat): nat {
    match s
    case Mail1RcptInit => if rcptType < 4 then 2 * (4 - rcptType) + 1 else 1
    case Mail2Rcpt => if rcptType < 4 then 2 * (4 - rcptType) + 2 else 2
    case ReadyEncrypted => 2
    case ReadyConnected => 1
    case ReadyAuthenticated => 1
    case ReadyMailSent => 1
    case UnconnectedState => 1
    case TlsState => 1
    case AuthenticatingState => 1
    case MailSendingState => 1
    case _ => 0
  }

  lemma MailDepths(t: nat)
    ensures t <= 3 ==> Depth(Mail1RcptInit, t) == 9 - 2 * t && Depth(Mail2Rcpt, t) == 10 - 2 * t
    ensures Depth(Mail3Data, t) == 0 && Depth(Mail1RcptInit, t) >= 1
    ensures t == 4 ==> Depth(Mail1RcptInit, t) == 1
  {
  }

  lemma TransientDepths(t: nat)
    ensures Depth(AuthPlain0, t) == Depth(AuthLogin0, t) == Depth(Mail0From, t) == Depth(Tls0StartTls, t) == Depth(ReadyState, t) == 0
    ensures Depth(AuthenticatingState, t) == Depth(MailSendingState, t) == Depth(TlsState, t) == 1
    ensures Depth(ReadyConnected, t) == Depth(ReadyAuthenticated, t) == Depth(ReadyMailSent, t) == 1
    ensures Depth(ReadyEncrypted, t) == 2
  {
  }

  predicate Begins(s: ClientState) {
    s.AuthenticatingState? || s.MailSendingState? || s.TlsState?
  }

  predicate Finishes(s: ClientState) {
    s.ReadyConnected? || s.ReadyEncrypted? || s.ReadyAuthenticated? || s.ReadyMailSent?
  }

  /** States whose entry changes no other state. */
  predicate Plain(s: ClientState) {
    !Begins(s) && !Finishes(s) && s != UnconnectedState && s != Mail1RcptInit && s != Mail2Rcpt
  }

  lemma {:induction false} StateIgnored(c: Client, s: ClientState)
    ensures Entered(c.(state := s), s) == Entered(c, s)
  {
    hide Email.Recipients, Said, Smtp.Rest, Flags, NextRecipient;
    FlagsOfState(c, s);
    RecipientsOfState(c, s);
  }

  lemma FlagsOfState(c: Client, s: ClientState)
    ensures Flags(c.(state := s), s) == Flags(c, s).(state := s)
  {
  }

  lemma RecipientsOfState(c: Client, s: ClientState)
    ensures NextRecipient(c.(state := s)) == NextRecipient(c)
  {
    hide Email.Recipients;
  }

  lemma PlainEntry(c: Client, s: ClientState)
    requires Plain(s)
    ensures var said := Said(s, c.connectionType == SslConnection, c.email);
      Entered(c, s) == c.(state := s, ready := c.ready && s != DisconnectingState,
        session := c.session + said, mail := c.mail + said)
  {
    hide Email.Recipients, Said;
  }

  lemma Forgotten(c: Client)
    ensures Entered(c, UnconnectedState) ==
      c.(state := UnconnectedState, ready := false, authenticated := false, session := [])
  {
    assert c.mail + [] == c.mail;
  }

  lemma PassAuth(c: Client)
    ensures Entered(c, AuthenticatingState) ==
      Entered(c.(authenticated := false), if c.auth == AuthPlain then AuthPlain0 else AuthLogin0)
  {
  }

  lemma PassMail(c: Client)
    ensures Entered(c, MailSendingState) == Entered(c.(mailSent := false), Mail0From)
  {
  }

  lemma PassReady(c: Client)
    ensures Entered(c, ReadyConnected) == Entered(c.(ready := true), ReadyState)
  {
    hide Said;
  }

  lemma PassEncrypted(c: Client)
    ensures Entered(c, ReadyEncrypted) == Entered(c, ReadyConnected)
  {
    hide Said;
  }

  lemma PassAuthenticated(c: Client)
    ensures Entered(c, ReadyAuthenticated) == Entered(c.(authenticated := true, auth := AuthPlain), ReadyState)
  {
    hide Said;
  }

  lemma PassSent(c: Client)
    ensures Entered(c, ReadyMailSent) == Entered(c.(mailSent := true), ReadyState)
  {
    hide Said;
  }

  lemma PassTls(c: Client)
    ensures Entered(c, TlsState) == Entered(c, Tls0StartTls)
  {
    hide Said;
  }

  lemma MailStarts(c: Client)
    ensures Entered(c, MailSendingState) == Entered(c.(mailSent := false), MailSendingState)
  {
  }
}

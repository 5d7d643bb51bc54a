/** Which of the replies in a batch of lines SmtpClient::socketReadyRead acts on. */
module SmtpReplies {
  import opened Smtp

  /** Section 4.2.1 of RFC 5321: a space after the code marks the last line of a reply. */
  predicate LastOfReply(line: string) {
    |line| > 3 && line[3] == ' '
  }

  predicate EndsReply(lines: seq<string>) {
    lines != [] && LastOfReply(lines[|lines| - 1])
  }

  /** The three characters of a reply code; anything but three digits is no reply code. */
  function ToInt(s: string): int
    requires |s| == 3
  {
    if forall i :: 0 <= i < 3 ==> '0' <= s[i] <= '9' then
      (s[0] - '0') as int * 100 + (s[1] - '0') as int * 10 + (s[2] - '0') as int
    else 0
  }

  function Code(line: string): int
    requires LastOfReply(line)
  {
    ToInt(line[..3])
  }

  /** The codes of all the replies that end in the lines. */
  function Codes(lines: seq<string>): seq<int> {
    if lines == [] then []
    else
      var front, last := lines[..|lines| - 1], lines[|lines| - 1];
      Codes(front) + (if LastOfReply(last) then [Code(last)] else [])
  }

  /** A client that acts on every one of them, as if each had come alone. */
  function AllReplied(c: Client, codes: seq<int>): Client {
    if codes == [] then c else Replied(AllReplied(c, codes[..|codes| - 1]), codes[|codes| - 1])
  }

  /** The client of the source: the last line alone decides. */
  function LinesRead(c: Client, lines: seq<string>): Client {
    if EndsReply(lines) then Replied(c, Code(lines[|lines| - 1])) else c
  }

  /** No line but the last one ends a reply: a caller can see it in the lines. */
  predicate AtMostOneReply(lines: seq<string>) {
    forall i :: 0 <= i < |lines| - 1 ==> !LastOfReply(lines[i])
  }

  lemma LastLineDecides(c: Client, lines: seq<string>)
    ensures var last := if lines == [] then "" else lines[|lines| - 1];
      && EndsReply(lines) == (|last| > 3 && last[3] == ' ')
      && LinesRead(c, lines) == if EndsReply(lines) then Step(c, Reply(ToInt(last[..3]))) else c
  {
    hide Replied, ToInt;
  }

  // ---- Every reply acted on leaves one trace ----

  function Heard(log: seq<Event>): nat {
    if log == [] then 0 else Heard(log[..|log| - 1]) + (if log[|log| - 1].Got? then 1 else 0)
  }

  lemma OneMore(log: seq<Event>, e: Event)
    ensures Heard(log + [e]) == Heard(log) + (if e.Got? then 1 else 0)
  {
    assert (log + [e])[..|log|] == log;
  }

  lemma SaidNotHeard(s: ClientState, ssl: bool, email: Email)
    ensures Said(s, ssl, email) == [] || (exists e: Event :: Said(s, ssl, email) == [e] && !e.Got?)
  {
  }

  lemma {:induction false} RecipientNotHeard(c: Client)
    ensures Heard(NextRecipient(c).mail) == Heard(c.mail)
  {
    hide Heard, Email.Recipients;
    OneMore(c.mail, Data);
    if c.next < |c.email.Recipients()| { OneMore(c.mail, RcptTo(c.email.Recipients()[c.next])); }
  }

  lemma {:induction false} EnteredNotHeard(c: Client, s: ClientState)
    ensures Heard(Entered(c, s).mail) == Heard(c.mail)
  {
    hide Heard, Email.Recipients, Said, Rest, Flags, NextRecipient;
    RecipientNotHeard(c);
    FlagsOnly(c, s);
    var said := Said(Rest(s, c.auth), c.connectionType == SslConnection, c.email);
    SaidNotHeard(Rest(s, c.auth), c.connectionType == SslConnection, c.email);
    if said == [] {
      assert c.mail + said == c.mail;
    } else {
      OneMore(c.mail, said[0]);
    }
  }

  lemma {:induction false} RepliedHeard(c: Client, code: int)
    ensures Heard(Replied(c, code).mail) == Heard(c.mail) + 1
  {
    hide Heard, Entered, Expected;
    var heard := c.Say(Got(c.state, code));
    OneMore(c.mail, Got(c.state, code));
    forall e ensures Heard(heard.Say(Failed(e)).mail) == Heard(heard.mail) { OneMore(heard.mail, Failed(e)); }
    var expected := Expected(c.state, c.connectionType);
    if expected.Expect? { EnteredNotHeard(heard, expected.next); }
  }

  lemma {:induction false} AllHeard(c: Client, codes: seq<int>)
    ensures Heard(AllReplied(c, codes).mail) == Heard(c.mail) + |codes|
  {
    hide Heard, Replied;
    if codes != [] {
      var front := codes[..|codes| - 1];
      AllHeard(c, front);
      RepliedHeard(AllReplied(c, front), codes[|codes| - 1]);
    }
  }

  lemma {:induction false} NoCodes(lines: seq<string>)
    ensures Codes(lines) == [] <==> (forall i :: 0 <= i < |lines| ==> !LastOfReply(lines[i]))
  {
    hide LastOfReply, Code;
    if lines != [] {
      var front := lines[..|lines| - 1];
      NoCodes(front);
      assert forall i :: 0 <= i < |front| ==> front[i] == lines[i];
    }
  }

  /** The client acts on every reply of a batch exactly when no reply but the last line's is in it. */
  lemma {:induction false} EveryReplySeenExactly(c: Client, lines: seq<string>)
    ensures LinesRead(c, lines) == AllReplied(c, Codes(lines)) <==> AtMostOneReply(lines)
  {
    hide Heard, Replied, LastOfReply, Code;
    AllHeard(c, Codes(lines));
    if lines != [] {
      var front, last := lines[..|lines| - 1], lines[|lines| - 1];
      NoCodes(front);
      assert forall i :: 0 <= i < |front| ==> front[i] == lines[i];
      if LastOfReply(last) {
        RepliedHeard(c, Code(last));
        if Codes(front) == [] {
          assert [] + [Code(last)] == [Code(last)];
          assert [Code(last)][..0] == [];
        }
      }
    }
  }

  /** A greeting and the answer to EHLO in one batch: the client waits for the greeting still,
      where one that heard both would be ready. */
  lemma {:induction false} GreetingMissed(c: Client)
    requires c.state == ConnectedState && c.connectionType != TlsConnection && !c.ready
    ensures var d := LinesRead(c, ["220 ready", "250 hello"]); d.state == ConnectedState && !d.ready
    ensures AllReplied(c, Codes(["220 ready", "250 hello"])).ready
  {
    hide Replied, AllReplied, Codes, LastOfReply, Code;
    BothWhole();
    TwoCodes("220 ready", "250 hello");
    GreetingAndEhlo(c);
    Unawaited(c);
  }

  lemma BothWhole()
    ensures LastOfReply("220 ready") && Code("220 ready") == 220
    ensures LastOfReply("250 hello") && Code("250 hello") == 250
  {
    var a, b := "220 ready", "250 hello";
    assert a[..3] == "220" && b[..3] == "250";
  }

  lemma Unawaited(c: Client)
    requires c.state == ConnectedState
    ensures Replied(c, 250).state == ConnectedState && Replied(c, 250).ready == c.ready
  {
  }

  lemma {:induction false} TwoCodes(a: string, b: string)
    requires LastOfReply(a) && LastOfReply(b)
    ensures Codes([a, b]) == [Code(a), Code(b)]
  {
    hide LastOfReply, Code;
    assert [a, b][..1] == [a] && [a][..0] == [] && Codes([]) == [];
    assert Codes([a]) == [] + [Code(a)];
  }

  lemma {:induction false} GreetingAndEhlo(c: Client)
    requires c.state == ConnectedState && c.connectionType != TlsConnection
    ensures AllReplied(c, [220, 250]).ready
  {
    assert [220, 250][..1] == [220] && [220][..0] == [];
    assert AllReplied(c, [220]) == Replied(c, 220);
    GreetingTaken(c);
    EhloTaken(Replied(c, 220));
  }

  lemma GreetingTaken(c: Client)
    requires c.state == ConnectedState
    ensures Replied(c, 220).state == EhloState && Replied(c, 220).connectionType == c.connectionType
  {
  }

  lemma EhloTaken(c: Client)
    requires c.state == EhloState && c.connectionType != TlsConnection
    ensures Replied(c, 250).ready
  {
  }

  /** A whole reply before a continuation line is not acted on at all. */
  lemma {:induction false} ReplyBeforeContinuation(c: Client, reply: string, line: string)
    requires LastOfReply(reply) && !LastOfReply(line)
    ensures LinesRead(c, [reply, line]) == c && AllReplied(c, Codes([reply, line])) == Replied(c, Code(reply))
  {
    hide Replied, LastOfReply, Code;
    assert [reply, line][..1] == [reply] && [reply][..0] == [] && Codes([]) == [];
    assert Codes([reply]) == [] + [Code(reply)];
    assert [Code(reply)] + [] == [Code(reply)] && [Code(reply)][..0] == [];
  }

  // ---- A line in its characters ----

  const DIGITS := "0123456789"

  lemma {:induction false} DigitRead(d: nat)
    requires d < 10
    ensures '0' <= DIGITS[d] <= '9' && (DIGITS[d] - '0') as int == d
  {
    if d < 5 { assert DIGITS[d] == "01234"[d]; } else { assert DIGITS[d] == "56789"[d - 5]; }
  }

  lemma {:induction false} ThreeDigits(h: nat, t: nat, u: nat)
    requires h < 10 && t < 10 && u < 10
    ensures ToInt([DIGITS[h], DIGITS[t], DIGITS[u]]) == 100 * h + 10 * t + u
  {
    DigitRead(h);
    DigitRead(t);
    DigitRead(u);
  }

  /** Three digits and a space are a reply with that code; with a hyphen in its place more lines follow. */
  lemma {:induction false} LineRead(c: Client, h: nat, t: nat, u: nat, text: string)
    requires h < 10 && t < 10 && u < 10
    ensures LinesRead(c, [[DIGITS[h], DIGITS[t], DIGITS[u], ' '] + text]) == Step(c, Reply(100 * h + 10 * t + u))
    ensures LinesRead(c, [[DIGITS[h], DIGITS[t], DIGITS[u], '-'] + text]) == c
  {
    hide ToInt, Replied;
    ThreeDigits(h, t, u);
    var line := [DIGITS[h], DIGITS[t], DIGITS[u], ' '] + text;
    assert line[..3] == [DIGITS[h], DIGITS[t], DIGITS[u]];
  }
}

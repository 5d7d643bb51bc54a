/** mimemultipart.cpp writes the parts of a message between boundary lines, and
    mime_read_stream of internet_mail_format.hpp splits them again (section 5.1.1 of
    RFC 2046).

    What the splitter hands to the parser of a part is the part's text; the parser is
    not modelled, so a split is the list of those texts.
  */
module Multipart {
  // ---- Lines, as std::getline sees them ----

  /** The pieces between line feeds; the last one, maybe empty, is read at end of file. */
  function Lines(s: string): (ls: seq<string>)
    ensures ls != []
  {
    if s == "" then [""]
    else
      var ls := Lines(s[1..]);
      if s[0] == '\n' then [""] + ls else [[s[0]] + ls[0]] + ls[1..]
  }

  function Joined(ls: seq<string>): string {
    if ls == [] then "" else ls[0] + "\n" + Joined(ls[1..])
  }

  predicate IsSpace(c: char) {
    c == ' ' || '\t' <= c <= '\r'
  }

  function TrimLeft(s: string): string {
    if s != "" && IsSpace(s[0]) then TrimLeft(s[1..]) else s
  }

  function TrimRight(s: string): string {
    if s != "" && IsSpace(s[|s| - 1]) then TrimRight(s[..|s| - 1]) else s
  }

  function Trim(s: string): string {
    TrimRight(TrimLeft(s))
  }

  // ---- The writer ----

  function Written(parts: seq<string>, boundary: string): string {
    if parts == [] then "--" + boundary + "--\r\n"
    else "--" + boundary + "\r\n" + parts[0] + Written(parts[1..], boundary)
  }

  lemma {:induction false} WrittenAppend(parts: seq<string>, boundary: string, k: nat)
    requires k < |parts|
    ensures Written(parts[k..], boundary) == "--" + boundary + "\r\n" + parts[k] + Written(parts[k + 1..], boundary)
  {
    assert parts[k..][1..] == parts[k + 1..];
  }

  method WriteContent(parts: seq<string>, boundary: string) returns (device: string)
    ensures device == Written(parts, boundary)
  {
    hide Written;
    device := "";
    assert parts[0..] == parts;
    for k := 0 to |parts|
      invariant device + Written(parts[k..], boundary) == Written(parts, boundary)
    {
      WrittenAppend(parts, boundary, k);
      ghost var before, rest := device, Written(parts[k + 1..], boundary);
      device := device + "--";
      device := device + boundary;
      device := device + "\r\n";
      device := device + parts[k];
      Regroup(before, boundary, parts[k], rest);
    }
    WrittenNone(boundary);
    assert parts[|parts|..] == [];
    device := device + "--";
    device := device + boundary;
    device := device + "--\r\n";
  }

  lemma Regroup(a: string, b: string, p: string, r: string)
    ensures a + ("--" + b + "\r\n" + p + r) == a + "--" + b + "\r\n" + p + r
  {
  }

  lemma WrittenNone(boundary: string)
    ensures Written([], boundary) == "--" + boundary + "--\r\n"
  {
  }

  // ---- The splitter ----

  predicate Opens(line: string, boundary: string) {
    Trim(line) == "--" + boundary
  }

  predicate Delimits(line: string, boundary: string) {
    Trim(line) == "--" + boundary || Trim(line) == "--" + boundary + "--"
  }

  /** Inside: every delimiter ends a part, the closing one too, and what is left is dropped. */
  function Collected(ls: seq<string>, part: string, boundary: string): seq<string>
    decreases |ls|
  {
    if ls == [] then []
    else if Delimits(ls[0], boundary) then [part] + Collected(ls[1..], "", boundary)
    else Collected(ls[1..], part + (ls[0] + "\n"), boundary)
  }

  function SplitLines(ls: seq<string>, boundary: string): seq<string> {
    if ls == [] then []
    else if Opens(ls[0], boundary) then Collected(ls[1..], "", boundary)
    else SplitLines(ls[1..], boundary)
  }

  function Split(text: string, boundary: string): seq<string> {
    SplitLines(Lines(text), boundary)
  }

  class InputStream {
    var rest: string
    var eof: bool

    constructor (text: string)
      ensures rest == text && !eof
    {
      rest, eof := text, false;
    }

    /** What getline calls are still to return. */
    ghost function Pending(): seq<string>
      reads this
    {
      if eof then [] else Lines(rest)
    }

    /** Stops after a line feed, or at the end of the input, and only then sets eof. */
    method GetLine() returns (line: string)
      requires !eof
      modifies this
      ensures old(Pending()) == [line] + Pending()
    {
      hide Lines;
      ghost var all := Lines(rest);
      line := "";
      var i := 0;
      assert rest[0..] == rest && "" + all[0] == all[0];
      while i < |rest| && rest[i] != '\n'
        invariant 0 <= i <= |rest| && rest == old(rest) && eof == old(eof)
        invariant all[0] == line + Lines(rest[i..])[0] && all[1..] == Lines(rest[i..])[1..]
      {
        LinesStep(rest, i);
        OneChar(line, rest[i], Lines(rest[i + 1..])[0]);
        line := line + [rest[i]];
        i := i + 1;
      }
      LinesStep(rest, i);
      assert line + "" == line && all == [all[0]] + all[1..];
      if i < |rest| {
        rest := rest[i + 1..];
      } else {
        rest := "";
        eof := true;
      }
    }
  }

  lemma OneChar(a: string, c: char, b: string)
    ensures a + ([c] + b) == a + [c] + b
  {
  }

  lemma {:induction false} LinesStep(s: string, i: nat)
    requires i <= |s|
    ensures i == |s| ==> Lines(s[i..]) == [""]
    ensures i < |s| && s[i] == '\n' ==> Lines(s[i..]) == [""] + Lines(s[i + 1..])
    ensures i < |s| && s[i] != '\n' ==>
      Lines(s[i..])[0] == [s[i]] + Lines(s[i + 1..])[0] && Lines(s[i..])[1..] == Lines(s[i + 1..])[1..]
  {
    if i < |s| { assert s[i..][1..] == s[i + 1..]; }
  }

  method ReadStream(stream: InputStream, boundary: string) returns (content: seq<string>)
    requires !stream.eof
    modifies stream
    ensures content == Split(old(stream.rest), boundary) && stream.eof
  {
    hide Lines, SplitLines, Collected, Opens, Trim;
    content := [];
    ghost var goal := Split(stream.rest, boundary);
    while !stream.eof
      invariant content + SplitLines(stream.Pending(), boundary) == goal
      invariant content == [] || stream.eof
      decreases |stream.Pending()|
    {
      ghost var before := stream.Pending();
      var line := stream.GetLine();
      SplitStep(before, boundary);
      OpensIf(line, boundary);
      assert before[1..] == stream.Pending();
      if Trim(line) == "--" + boundary {
        content := ReadParts(stream, boundary);
        SplitNothing(boundary);
      }
    }
    SplitNothing(boundary);
  }

  /** The inner loop: it always runs to the end of the input. */
  method ReadParts(stream: InputStream, boundary: string) returns (content: seq<string>)
    modifies stream
    ensures content == Collected(old(stream.Pending()), "", boundary) && stream.eof
  {
    hide Lines, Collected, Delimits, Trim;
    content := [];
    var part := "";
    ghost var goal := Collected(stream.Pending(), "", boundary);
    while !stream.eof
      invariant content + Collected(stream.Pending(), part, boundary) == goal
      decreases |stream.Pending()|
    {
      ghost var pending := stream.Pending();
      var line := stream.GetLine();
      CollectStep(pending, part, boundary);
      DelimitsIf(line, boundary);
      assert pending[1..] == stream.Pending();
      if Trim(line) == "--" + boundary || Trim(line) == "--" + boundary + "--" {
        content := content + [part];
        part := "";
        continue;
      }
      part := part + (line + "\n");
    }
    CollectNothing(part, boundary);
  }

  lemma OpensIf(line: string, boundary: string)
    ensures Opens(line, boundary) <==> Trim(line) == "--" + boundary
  {
  }

  lemma DelimitsIf(line: string, boundary: string)
    ensures Delimits(line, boundary) <==> (Trim(line) == "--" + boundary || Trim(line) == "--" + boundary + "--")
  {
  }

  lemma SplitStep(ls: seq<string>, boundary: string)
    requires ls != []
    ensures SplitLines(ls, boundary) ==
      if Opens(ls[0], boundary) then Collected(ls[1..], "", boundary) else SplitLines(ls[1..], boundary)
  {
  }

  lemma CollectStep(ls: seq<string>, part: string, boundary: string)
    requires ls != []
    ensures Collected(ls, part, boundary) ==
      if Delimits(ls[0], boundary) then [part] + Collected(ls[1..], "", boundary)
      else Collected(ls[1..], part + (ls[0] + "\n"), boundary)
  {
  }

  lemma CollectNothing(part: string, boundary: string)
    ensures Collected([], part, boundary) == []
  {
  }

  lemma SplitNothing(boundary: string)
    ensures SplitLines([], boundary) == []
  {
  }
}

/**
 The event stream of the live build log, read back by the parser of section 9.2.6 of the WHATWG HTML standard.
 */
module Sse {
  import opened Options
  import opened Text

  datatype Message = Message(kind: string, data: string)

  // ---------------------------------------------------------------- what is written

  function DataLines(parts: seq<string>): string {
    if parts == [] then "" else "data: " + parts[0] + "\n" + DataLines(parts[1..])
  }

  function Sent(line: string): string { DataLines(Split(line, '\n')) + "\n" }

  function SentAll(lines: seq<string>): string {
    if lines == [] then "" else Sent(lines[0]) + SentAll(lines[1..])
  }

  function End(data: string): string { "event: end\n" + ("data: " + data + "\n" + "\n") }

  const NOT_LIVE := "{\"live\":false}"

  /** Everything a stream that comes to its end has written. */
  function Stream(lines: seq<string>): string { SentAll(lines) + End(NOT_LIVE) }

  /** The part of `s` that a connection taking `room` more bytes lets through. */
  function Take(s: string, room: nat): string { if |s| <= room then s else s[..room] }

  lemma {:induction false} TakeJoin(a: string, b: string, room: nat)
    ensures Take(a + b, room) == if |a| <= room then a + Take(b, room - |a|) else Take(a, room)
  {
  }

  /** A response whose connection fails after `room` more bytes. */
  class Response {
    var body: string
    var room: nat

    constructor (room: nat)
      ensures body == "" && this.room == room
    {
      body, this.room := "", room;
    }

    method Write(s: string) returns (ok: bool)
      modifies this
      ensures body == old(body) + Take(s, old(room))
      ensures ok <==> |s| <= old(room)
      ensures ok ==> room == old(room) - |s|
    {
      ok := |s| <= room;
      body := body + Take(s, room);
      room := if ok then room - |s| else 0;
    }

    method Send(line: string) returns (ok: bool)
      modifies this
      ensures body == old(body) + Take(Sent(line), old(room))
      ensures ok <==> |Sent(line)| <= old(room)
      ensures ok ==> room == old(room) - |Sent(line)|
    {
      var parts := Split(line, '\n');
      var i := 0;
      ghost var done := "";
      assert parts[i..] == parts;
      while i < |parts|
        invariant 0 <= i <= |parts|
        invariant done + (DataLines(parts[i..]) + "\n") == Sent(line)
        invariant |done| <= old(room) && room == old(room) - |done| && body == old(body) + done
      {
        var text := "data: " + parts[i] + "\n";
        DataLinesFrom(parts, i);
        Regroup(text, DataLines(parts[i + 1..]), "\n");
        WriteMore(old(body), done, text, DataLines(parts[i + 1..]) + "\n", old(room));
        ok := Write(text);
        if !ok { return; }
        done := done + text;
        i := i + 1;
      }
      assert DataLines(parts[i..]) + "\n" == "\n";
      WriteMore(old(body), done, "\n", "", old(room));
      assert "\n" + "" == "\n";
      ok := Write("\n");
    }

    method SendAll(lines: seq<string>) returns (ok: bool)
      modifies this
      ensures body == old(body) + Take(SentAll(lines), old(room))
      ensures ok <==> |SentAll(lines)| <= old(room)
      ensures ok ==> room == old(room) - |SentAll(lines)|
    {
      ok := true;
      var i := 0;
      ghost var done := "";
      assert lines[i..] == lines;
      while i < |lines|
        invariant 0 <= i <= |lines| && ok
        invariant done + SentAll(lines[i..]) == SentAll(lines)
        invariant |done| <= old(room) && room == old(room) - |done| && body == old(body) + done
      {
        SentAllFrom(lines, i);
        WriteMore(old(body), done, Sent(lines[i]), SentAll(lines[i + 1..]), old(room));
        ok := Send(lines[i]);
        if !ok { return; }
        done := done + Sent(lines[i]);
        i := i + 1;
      }
      assert done + SentAll(lines[i..]) == done;
    }

    /** Of a build that runs, the lines that come while the client stays. */
    method Follow(lines: seq<string>, stays: nat)
      modifies this
      ensures body == old(body) + Take(Followed(lines, stays), old(room))
    {
      if stays < |lines| {
        var _ := SendAll(lines[..stays]);
      } else {
        TakeJoin(SentAll(lines), End(NOT_LIVE), room);
        Regroup(body, SentAll(lines), Take(End(NOT_LIVE), room - if |SentAll(lines)| <= room then |SentAll(lines)| else room));
        var ok := SendAll(lines);
        if ok { ok := Write(End(NOT_LIVE)); }
      }
    }

    /** The buffered tail, then the lines that follow if the build runs, then the end. */
    method StreamLog(tail: seq<string>, live: bool, lines: seq<string>, stays: nat)
      modifies this
      ensures body == old(body) + Take(Log(tail, live, lines, stays), old(room))
    {
      ghost var rest := if live then Followed(lines, stays) else End(NOT_LIVE);
      TakeJoin(SentAll(tail), rest, room);
      Regroup(body, SentAll(tail), Take(rest, room - if |SentAll(tail)| <= room then |SentAll(tail)| else room));
      var ok := SendAll(tail);
      if !ok { return; }
      if live {
        Follow(lines, stays);
      } else {
        ok := Write(End(NOT_LIVE));
      }
    }
  }

  /** A client that leaves a running build gets no end. */
  function Followed(lines: seq<string>, stays: nat): string {
    if stays < |lines| then SentAll(lines[..stays]) else SentAll(lines) + End(NOT_LIVE)
  }

  /** What is written when no write fails. */
  function Log(tail: seq<string>, live: bool, lines: seq<string>, stays: nat): string {
    SentAll(tail) + if live then Followed(lines, stays) else End(NOT_LIVE)
  }

  lemma {:induction false} DataLinesFrom(parts: seq<string>, i: nat)
    requires i < |parts|
    ensures DataLines(parts[i..]) == "data: " + parts[i] + "\n" + DataLines(parts[i + 1..])
  {
    assert parts[i..][0] == parts[i] && parts[i..][1..] == parts[i + 1..];
  }

  lemma {:induction false} SentAllFrom(lines: seq<string>, i: nat)
    requires i < |lines|
    ensures SentAll(lines[i..]) == Sent(lines[i]) + SentAll(lines[i + 1..])
  {
    assert lines[i..][0] == lines[i] && lines[i..][1..] == lines[i + 1..];
  }

  /** One more write, seen from the start of the text. */
  lemma {:induction false} WriteMore(was: string, done: string, text: string, rest: string, room: nat)
    requires |done| <= room
    ensures done + (text + rest) == (done + text) + rest && was + (done + text) == (was + done) + text
    ensures |text| > room - |done| ==>
      |done + (text + rest)| > room && was + Take(done + (text + rest), room) == (was + done) + Take(text, room - |done|)
    ensures was + Take(done + text, room) == (was + done) + Take(text, room - |done|)
  {
    Regroup(done, text, rest);
    Regroup(was, done, text);
    TakeJoin(done, text + rest, room);
    TakeJoin(text, rest, room - |done|);
    TakeJoin(done, text, room);
    Regroup(was, done, Take(text, room - |done|));
  }

  lemma {:induction false} Regroup(a: string, b: string, c: string)
    ensures (a + b) + c == a + (b + c)
  {
  }

  lemma {:induction false} SentAllJoin(a: seq<string>, b: seq<string>)
    ensures SentAll(a + b) == SentAll(a) + SentAll(b)
  {
    if a == [] {
      assert a + b == b;
    } else {
      assert (a + b)[1..] == a[1..] + b;
      SentAllJoin(a[1..], b);
    }
  }

  // ---------------------------------------------------------------- how it is read

  datatype Buffers = Buffers(data: string, kind: string, out: seq<Message>)

  const EMPTY := Buffers("", "", [])

  /** The end of the first line: a carriage return or a line feed. */
  function LineEnd(s: string): (i: nat)
    ensures i <= |s| && (forall j :: 0 <= j < i ==> s[j] != '\n' && s[j] != '\r')
    ensures i < |s| ==> s[i] == '\n' || s[i] == '\r'
  {
    if s == "" || s[0] == '\n' || s[0] == '\r' then 0 else 1 + LineEnd(s[1..])
  }

  function Dispatch(b: Buffers): Buffers {
    if b.data == "" then b.(kind := "")
    else
      var data := if b.data[|b.data| - 1] == '\n' then b.data[..|b.data| - 1] else b.data;
      Buffers("", "", b.out + [Message(if b.kind == "" then "message" else b.kind, data)])
  }

  function Field(b: Buffers, name: string, value: string): Buffers {
    if name == "event" then b.(kind := value)
    else if name == "data" then b.(data := b.data + value + "\n")
    else b
  }

  function Process(b: Buffers, line: string): Buffers {
    if line == "" then Dispatch(b)
    else match Cut(line, ':')
      case None => Field(b, line, "")
      case Some((name, value)) =>
        if name == "" then b
        else Field(b, name, if value != "" && value[0] == ' ' then value[1..] else value)
  }

  /** An unfinished last line, and data not followed by an empty line, are dropped. */
  function Read(b: Buffers, s: string): seq<Message>
    decreases |s|
  {
    var i := LineEnd(s);
    if i == |s| then b.out
    else
      var next := if s[i] == '\r' && i + 1 < |s| && s[i + 1] == '\n' then i + 2 else i + 1;
      Read(Process(b, s[..i]), s[next..])
  }

  function Parse(s: string): seq<Message> { Read(EMPTY, s) }

  // ---------------------------------------------------------------- the round trip

  function Messages(lines: seq<string>): seq<Message> {
    if lines == [] then [] else [Message("message", lines[0])] + Messages(lines[1..])
  }

  predicate Plain(s: string) { '\n' !in s && '\r' !in s }

  lemma {:induction false} ReadLine(b: Buffers, line: string, rest: string)
    requires Plain(line)
    ensures Read(b, line + "\n" + rest) == Read(Process(b, line), rest)
  {
    var s := line + "\n" + rest;
    assert s[|line|] == '\n';
    assert forall j :: 0 <= j < |line| ==> s[j] == line[j] && line[j] in line;
    assert LineEnd(s) == |line|;
    assert s[..|line|] == line && s[|line| + 1..] == rest;
  }

  lemma {:induction false} ProcessData(b: Buffers, part: string)
    ensures Process(b, "data: " + part) == b.(data := b.data + part + "\n")
  {
    assert "data: " + part == "data" + [':'] + (" " + part);
    CutFirst("data", ':', " " + part);
    assert (" " + part)[1..] == part;
  }

  lemma {:induction false} DataIsPlain(part: string)
    requires Plain(part)
    ensures Plain("data: " + part)
  {
  }

  lemma {:induction false} ReadDataLines(b: Buffers, parts: seq<string>, rest: string)
    requires parts != [] && forall p :: p in parts ==> Plain(p)
    ensures Read(b, DataLines(parts) + rest) == Read(b.(data := b.data + Join(parts, '\n') + "\n"), rest)
    decreases |parts|
  {
    var line := "data: " + parts[0];
    var tail := DataLines(parts[1..]) + rest;
    Regroup(line + "\n", DataLines(parts[1..]), rest);
    DataIsPlain(parts[0]);
    ReadLine(b, line, tail);
    ProcessData(b, parts[0]);
    var c := b.(data := b.data + parts[0] + "\n");
    if |parts| == 1 {
      assert tail == rest;
    } else {
      ReadDataLines(c, parts[1..], rest);
      JoinGrows(b.data, parts);
    }
  }

  lemma {:induction false} JoinGrows(data: string, parts: seq<string>)
    requires |parts| > 1
    ensures (data + parts[0] + "\n") + Join(parts[1..], '\n') + "\n" == data + Join(parts, '\n') + "\n"
  {
    Regroup(data, parts[0] + "\n", Join(parts[1..], '\n'));
    Regroup(data, parts[0], "\n");
    assert ['\n'] == "\n";
  }

  lemma {:induction false} PartsArePlain(line: string)
    requires '\r' !in line
    ensures forall p :: p in Split(line, '\n') ==> Plain(p)
  {
    JoinOfSplit(line, '\n');
    PartsWithin(Split(line, '\n'), '\n', '\r');
  }

  lemma {:induction false} PartsWithin(parts: seq<string>, sep: char, c: char)
    requires c !in Join(parts, sep)
    ensures forall p :: p in parts ==> c !in p
  {
    if |parts| > 1 {
      assert Join(parts, sep) == parts[0] + [sep] + Join(parts[1..], sep);
      PartsWithin(parts[1..], sep, c);
    }
  }

  /** One log line is one message, whatever line feeds are in it. */
  lemma {:induction false} ReadSent(out: seq<Message>, line: string, rest: string)
    requires '\r' !in line
    ensures Read(Buffers("", "", out), Sent(line) + rest) == Read(Buffers("", "", out + [Message("message", line)]), rest)
  {
    var b := Buffers("", "", out);
    var parts := Split(line, '\n');
    PartsArePlain(line);
    JoinOfSplit(line, '\n');
    Regroup(DataLines(parts), "\n", rest);
    ReadDataLines(b, parts, "\n" + rest);
    assert "" + line + "\n" == line + "\n";
    ReadBlank(b.(data := line + "\n"), rest);
    assert (line + "\n")[..|line|] == line;
  }

  lemma {:induction false} ProcessKind(b: Buffers)
    ensures Process(b, "event: end") == b.(kind := "end")
  {
    CutFirst("event", ':', " end");
    assert "event: end" == "event" + [':'] + " end";
    assert " end"[1..] == "end";
  }

  lemma {:induction false} ReadBlank(b: Buffers, rest: string)
    ensures Read(b, "\n" + rest) == Read(Dispatch(b), rest)
  {
    ReadLine(b, "", rest);
    assert "" + "\n" + rest == "\n" + rest;
  }

  lemma {:induction false} ReadEnd(out: seq<Message>, data: string)
    requires Plain(data)
    ensures Read(Buffers("", "", out), End(data)) == out + [Message("end", data)]
  {
    var c := Buffers("", "end", out);
    EndInLines(data);
    ReadLine(Buffers("", "", out), "event: end", "data: " + data + "\n" + "\n");
    ProcessKind(Buffers("", "", out));
    ReadLine(c, "data: " + data, "\n");
    ProcessData(c, data);
    assert "" + data + "\n" == data + "\n";
    ReadBlank(c.(data := data + "\n"), "");
    assert "\n" + "" == "\n";
    assert (data + "\n")[..|data|] == data;
  }

  lemma {:induction false} EndInLines(data: string)
    requires Plain(data)
    ensures End(data) == "event: end" + "\n" + ("data: " + data + "\n" + "\n")
    ensures Plain("event: end") && Plain("data: " + data)
  {
    DataIsPlain(data);
  }

  const LAST := Message("end", NOT_LIVE)

  lemma {:induction false} FirstMessage(out: seq<Message>, lines: seq<string>)
    requires lines != []
    ensures (out + [Message("message", lines[0])]) + Messages(lines[1..]) == out + Messages(lines)
  {
  }

  /** Lines are read one message each, whatever follows them. */
  lemma {:induction false} ReadLines(out: seq<Message>, lines: seq<string>, rest: string)
    requires forall l :: l in lines ==> '\r' !in l
    ensures Read(Buffers("", "", out), SentAll(lines) + rest) == Read(Buffers("", "", out + Messages(lines)), rest)
    decreases |lines|
  {
    if lines == [] {
      assert SentAll(lines) + rest == rest && out + Messages(lines) == out;
    } else {
      Regroup(Sent(lines[0]), SentAll(lines[1..]), rest);
      ReadSent(out, lines[0], SentAll(lines[1..]) + rest);
      ReadLines(out + [Message("message", lines[0])], lines[1..], rest);
      FirstMessage(out, lines);
    }
  }

  lemma {:induction false} ReadSentAll(out: seq<Message>, lines: seq<string>)
    requires forall l :: l in lines ==> '\r' !in l
    ensures Read(Buffers("", "", out), Stream(lines)) == out + Messages(lines) + [LAST]
  {
    ReadLines(out, lines, End(NOT_LIVE));
    ReadEnd(out + Messages(lines), NOT_LIVE);
  }

  /** No message ever carries a carriage return: the parser ends a line at every one. */
  lemma {:induction false} ReadHasNoReturns(b: Buffers, s: string)
    requires '\r' !in b.data && forall m :: m in b.out ==> '\r' !in m.data
    ensures forall m :: m in Read(b, s) ==> '\r' !in m.data
    decreases |s|
  {
    var i := LineEnd(s);
    if i < |s| {
      var next := if s[i] == '\r' && i + 1 < |s| && s[i + 1] == '\n' then i + 2 else i + 1;
      ProcessHasNoReturns(b, s[..i]);
      ReadHasNoReturns(Process(b, s[..i]), s[next..]);
    }
  }

  lemma {:induction false} ProcessHasNoReturns(b: Buffers, line: string)
    requires '\r' !in b.data && '\r' !in line && forall m :: m in b.out ==> '\r' !in m.data
    ensures var c := Process(b, line); '\r' !in c.data && forall m :: m in c.out ==> '\r' !in m.data
  {
  }

  lemma {:induction false} MessagesCarryLines(lines: seq<string>, l: string)
    requires l in lines
    ensures Message("message", l) in Messages(lines)
  {
    if l != lines[0] { MessagesCarryLines(lines[1..], l); }
  }

  /**
   A finished stream is read back as its log lines, one message each and in order, and one `end` event,
   exactly when no line has a carriage return in it.
   */
  lemma {:induction false} StreamRoundTrip(lines: seq<string>)
    ensures Parse(Stream(lines)) == Messages(lines) + [LAST]
       <==> forall l :: l in lines ==> '\r' !in l
  {
    if forall l :: l in lines ==> '\r' !in l {
      ReadSentAll([], lines);
      assert [] + Messages(lines) == Messages(lines);
    } else {
      var l :| l in lines && '\r' in l;
      MessagesCarryLines(lines, l);
      ReadHasNoReturns(EMPTY, Stream(lines));
      assert Message("message", l) in Messages(lines) + [LAST];
    }
  }

  /**
   What a client reads on a connection that holds: the buffered tail; then, of a build that runs, every line that came
   while it stayed; and the end, unless it left before the last line.
   */
  lemma {:induction false} LogIsRead(tail: seq<string>, live: bool, lines: seq<string>, stays: nat)
    requires forall l :: l in tail + lines ==> '\r' !in l
    ensures Parse(Log(tail, live, lines, stays)) ==
      if !live then Messages(tail) + [LAST]
      else if stays < |lines| then Messages(tail + lines[..stays])
      else Messages(tail + lines) + [LAST]
  {
    assert forall l :: l in tail ==> l in tail + lines;
    assert forall l :: l in lines ==> l in tail + lines;
    if !live {
      StreamRoundTrip(tail);
    } else if stays < |lines| {
      var seen := tail + lines[..stays];
      SentAllJoin(tail, lines[..stays]);
      assert forall l :: l in lines[..stays] ==> l in lines;
      ReadLines([], seen, "");
      assert SentAll(seen) + "" == SentAll(seen) && [] + Messages(seen) == Messages(seen);
    } else {
      SentAllJoin(tail, lines);
      Regroup(SentAll(tail), SentAll(lines), End(NOT_LIVE));
      StreamRoundTrip(tail + lines);
    }
  }

  // ---------------------------------------------------------------- a stream cut short

  lemma {:induction false} PrefixOfPrefix(a: seq<Message>, b: seq<Message>, c: seq<Message>)
    requires a <= b <= c
    ensures a <= c
  {
  }

  lemma {:induction false} ReadKeepsOut(b: Buffers, s: string)
    ensures b.out <= Read(b, s)
    decreases |s|
  {
    var i := LineEnd(s);
    if i < |s| {
      var next := if s[i] == '\r' && i + 1 < |s| && s[i + 1] == '\n' then i + 2 else i + 1;
      var c := Process(b, s[..i]);
      ProcessKeepsOut(b, s[..i]);
      ReadKeepsOut(c, s[next..]);
      PrefixOfPrefix(b.out, c.out, Read(b, s));
    }
  }

  lemma {:induction false} ProcessKeepsOut(b: Buffers, line: string)
    ensures b.out <= Process(b, line).out
  {
  }

  lemma {:induction false} LineEndIs(s: string, i: nat)
    requires i <= |s| && (forall j :: 0 <= j < i ==> s[j] != '\n' && s[j] != '\r')
    requires i < |s| ==> s[i] == '\n' || s[i] == '\r'
    ensures LineEnd(s) == i
  {
    var _ := LineEnd(s);
  }

  lemma {:induction false} CutAfterLine(s: string, n: nat)
    requires LineEnd(s) < n <= |s| && '\r' !in s
    ensures LineEnd(s[..n]) == LineEnd(s) && s[LineEnd(s)] == '\n'
    ensures s[..n][..LineEnd(s)] == s[..LineEnd(s)]
    ensures s[..n][LineEnd(s) + 1..] == s[LineEnd(s) + 1..][..n - LineEnd(s) - 1]
    ensures '\r' !in s[LineEnd(s) + 1..]
  {
    var i, cut := LineEnd(s), s[..n];
    assert forall k :: 0 <= k < n ==> cut[k] == s[k];
    LineEndIs(cut, i);
    assert s[i] in s;
    SuffixLacks(s, i + 1, '\r');
    SlicesOfSlice(s, n, i);
  }

  lemma {:induction false} SlicesOfSlice(s: string, n: nat, i: nat)
    requires i < n <= |s|
    ensures s[..n][..i] == s[..i] && s[..n][i + 1..] == s[i + 1..][..n - i - 1]
  {
  }

  lemma {:induction false} SuffixLacks(s: string, n: nat, c: char)
    requires n <= |s| && c !in s
    ensures c !in s[n..]
  {
  }

  lemma {:induction false} CutInLine(s: string, n: nat)
    requires n <= LineEnd(s)
    ensures LineEnd(s[..n]) == n
  {
    assert forall k :: 0 <= k < n ==> s[..n][k] == s[k];
    LineEndIs(s[..n], n);
  }

  lemma {:induction false} ReadOneLine(b: Buffers, s: string)
    requires LineEnd(s) < |s| && s[LineEnd(s)] == '\n'
    ensures Read(b, s) == Read(Process(b, s[..LineEnd(s)]), s[LineEnd(s) + 1..])
  {
  }

  lemma {:induction false} ReadPrefix(b: Buffers, s: string, n: nat)
    requires n <= |s| && '\r' !in s
    ensures Read(b, s[..n]) <= Read(b, s)
    decreases |s|
  {
    var i := LineEnd(s);
    if i < n {
      CutAfterLine(s, n);
      ReadOneLine(b, s);
      ReadOneLine(b, s[..n]);
      ReadPrefix(Process(b, s[..i]), s[i + 1..], n - i - 1);
    } else {
      CutInLine(s, n);
      ReadKeepsOut(b, s);
    }
  }

  /** Whatever is written is the beginning of a finished stream. */
  lemma {:induction false} LogIsPrefix(tail: seq<string>, live: bool, lines: seq<string>, stays: nat, room: nat)
    ensures Take(Log(tail, live, lines, stays), room) <= Stream(if live then tail + lines else tail)
  {
    if live {
      SentAllJoin(tail, lines);
      Regroup(SentAll(tail), SentAll(lines), End(NOT_LIVE));
      if stays < |lines| {
        SentAllJoin(lines[..stays], lines[stays..]);
        assert lines == lines[..stays] + lines[stays..];
        Regroup(SentAll(tail), SentAll(lines[..stays]), SentAll(lines[stays..]));
      }
    }
  }

  /** A client that loses the connection at any byte has seen a prefix of the lines, each one whole. */
  lemma {:induction false} CutStreamIsPrefix(lines: seq<string>, n: nat)
    requires n <= |Stream(lines)| && forall l :: l in lines ==> '\r' !in l
    ensures Parse(Stream(lines)[..n]) <= Messages(lines) + [LAST]
  {
    StreamRoundTrip(lines);
    StreamHasNoReturns(lines);
    ReadPrefix(EMPTY, Stream(lines), n);
  }

  lemma {:induction false} DataLinesHaveNoReturns(parts: seq<string>)
    requires forall p :: p in parts ==> '\r' !in p
    ensures '\r' !in DataLines(parts)
  {
    if parts != [] { DataLinesHaveNoReturns(parts[1..]); }
  }

  lemma {:induction false} StreamHasNoReturns(lines: seq<string>)
    requires forall l :: l in lines ==> '\r' !in l
    ensures '\r' !in Stream(lines)
  {
    if lines != [] {
      PartsArePlain(lines[0]);
      DataLinesHaveNoReturns(Split(lines[0], '\n'));
      StreamHasNoReturns(lines[1..]);
    }
  }
}

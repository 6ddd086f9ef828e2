/** The live log view: `streamCaddyLogs` in use-caddy-logs.ts reads the event stream that
    caddy_logs_handler.go writes (sections 9.2.5 and 9.2.6 of the WHATWG HTML Standard), chunk by
    chunk, and keeps the newest lines.
 */
module LogStream {
  import opened Wrappers
  import opened Text

  const BUFFER_CAP := 3000

  const SEP := "\n\n"

  /** `buffer.split('\n\n')`. */
  function Frames(s: string): (r: seq<string>)
    ensures r != []
  {
    if s == "" then [""]
    else if SEP <= s then [""] + Frames(s[2..])
    else Prepend(s[0], Frames(s[1..]))
  }

  /** The character goes to the front of the first piece. */
  function Prepend(c: char, pieces: seq<string>): (r: seq<string>)
    requires pieces != []
    ensures |r| == |pieces|
  {
    [[c] + pieces[0]] + pieces[1..]
  }

  /** `frame.split('\n')`. */
  function Lines(s: string): seq<string> { Split(s, '\n') }

  function Init(fs: seq<string>): seq<string>
    requires fs != []
  {
    fs[..|fs| - 1]
  }

  function Last(fs: seq<string>): string
    requires fs != []
  {
    fs[|fs| - 1]
  }

  /** The payload of a frame: its first data line, without the field name. */
  function FirstData(lines: seq<string>): Option<string> {
    if lines == [] then None
    else if "data: " <= lines[0] then Some(lines[0][6..])
    else FirstData(lines[1..])
  }

  function Payload(frame: string): Option<string> { FirstData(Lines(frame)) }

  function Payloads(frames: seq<string>): seq<string> {
    if frames == [] then []
    else
      Payloads(Init(frames)) + match Payload(Last(frames)) case Some(p) => [p] case None => []
  }

  function Concat(chunks: seq<string>): string {
    if chunks == [] then "" else Concat(chunks[..|chunks| - 1]) + chunks[|chunks| - 1]
  }

  // ------------------------------------------------------------ chunking does not matter

  lemma {:induction false} OneFrame(s: string)
    requires |Frames(s)| == 1
    ensures Frames(s) == [s]
    decreases s
  {
    if s != "" {
      OneFrame(s[1..]);
      assert [s[0]] + s[1..] == s;
    }
  }

  lemma PrependSplit(c: char, fa: seq<string>, more: seq<string>)
    requires |fa| > 1
    ensures Init(Prepend(c, fa)) + more == Prepend(c, Init(fa) + more)
    ensures Last(Prepend(c, fa)) == Last(fa)
  {
  }

  /** Splitting may stop anywhere and resume with the unfinished frame. */
  ghost predicate Resumes(a: string, b: string) {
    Frames(a + b) == Init(Frames(a)) + Frames(Last(Frames(a)) + b)
  }

  lemma {:induction false} Resume(a: string, b: string)
    ensures Resumes(a, b)
    decreases a
  {
    if |Frames(a)| == 1 {
      OneFrame(a);
      assert Init([a]) == [] && [] + Frames(a + b) == Frames(a + b);
    } else if SEP <= a {
      Resume(a[2..], b);
      ResumeAfterSeparator(a, b);
    } else {
      Resume(a[1..], b);
      ResumeAfterCharacter(a, b);
    }
  }

  lemma ResumeAfterSeparator(a: string, b: string)
    requires SEP <= a && Resumes(a[2..], b)
    ensures Resumes(a, b)
  {
    SkipSeparator(a, b);
    var rest := Frames(a[2..]);
    var more := Frames(Last(rest) + b);
    assert Frames(a) == [""] + rest;
    assert Init([""] + rest) == [""] + Init(rest) && Last([""] + rest) == Last(rest);
    assert [""] + (Init(rest) + more) == ([""] + Init(rest)) + more;
  }

  lemma ResumeAfterCharacter(a: string, b: string)
    requires !(SEP <= a) && |Frames(a)| > 1 && Resumes(a[1..], b)
    ensures Resumes(a, b)
  {
    SkipCharacter(a, b);
    var rest := Frames(a[1..]);
    assert Frames(a) == Prepend(a[0], rest);
    PrependSplit(a[0], rest, Frames(Last(rest) + b));
  }

  lemma SkipSeparator(a: string, b: string)
    requires SEP <= a
    ensures Frames(a + b) == [""] + Frames(a[2..] + b)
  {
    assert (a + b)[..2] == a[..2] && (a + b)[2..] == a[2..] + b;
  }

  lemma SkipCharacter(a: string, b: string)
    requires !(SEP <= a) && |Frames(a)| > 1
    ensures Frames(a + b) == Prepend(a[0], Frames(a[1..] + b))
  {
    assert |a| >= 2;
    assert (a + b)[..2] == a[..2] && (a + b)[1..] == a[1..] + b;
  }

  lemma {:induction false} PayloadsConcat(a: seq<string>, b: seq<string>)
    ensures Payloads(a + b) == Payloads(a) + Payloads(b)
    decreases |b|
  {
    if b == [] {
      assert a + b == a;
    } else {
      PayloadsConcat(a, Init(b));
      assert Init(a + b) == a + Init(b) && Last(a + b) == Last(b);
    }
  }

  /** `streamCaddyLogs`: for every chunking, the lines handed on are those of the whole text read at
      once, and the buffer is the unfinished frame. */
  method StreamCaddyLogs(chunks: seq<string>) returns (emitted: seq<string>, buffer: string)
    ensures emitted == Payloads(Init(Frames(Concat(chunks))))
    ensures buffer == Last(Frames(Concat(chunks)))
  {
    emitted, buffer := [], "";
    assert chunks[..|chunks|] == chunks;
    for i := 0 to |chunks|
      invariant emitted == Payloads(Init(Frames(Concat(chunks[..i]))))
      invariant buffer == Last(Frames(Concat(chunks[..i])))
    {
      assert chunks[..i + 1][..i] == chunks[..i];
      Feed(Concat(chunks[..i]), chunks[i]);
      var frames := Frames(buffer + chunks[i]);
      buffer := Last(frames);
      var lines := HandOn(Init(frames));
      emitted := emitted + lines;
    }
  }

  /** One more chunk, in terms of the whole text so far. */
  lemma Feed(text: string, chunk: string)
    ensures var frames := Frames(Last(Frames(text)) + chunk);
            && Payloads(Init(Frames(text + chunk))) == Payloads(Init(Frames(text))) + Payloads(Init(frames))
            && Last(Frames(text + chunk)) == Last(frames)
  {
    Resume(text, chunk);
    var done, frames := Init(Frames(text)), Frames(Last(Frames(text)) + chunk);
    assert Init(done + frames) == done + Init(frames);
    PayloadsConcat(done, Init(frames));
  }

  method HandOn(frames: seq<string>) returns (lines: seq<string>)
    ensures lines == Payloads(frames)
  {
    lines := [];
    assert frames[..|frames|] == frames;
    for k := 0 to |frames|
      invariant lines == Payloads(frames[..k])
    {
      assert Init(frames[..k + 1]) == frames[..k];
      var dataLine := FindData(frames[k]);
      if dataLine.Some? {
        lines := lines + [dataLine.value];
      }
    }
  }

  /** `frame.split('\n').find(...)` and the slice after it. */
  method FindData(frame: string) returns (r: Option<string>)
    ensures r == Payload(frame)
    ensures r.None? <==> forall i :: 0 <= i < |Split(frame, '\n')| ==> !("data: " <= Split(frame, '\n')[i])
    ensures r.Some? ==> exists i :: && 0 <= i < |Split(frame, '\n')| && Split(frame, '\n')[i] == "data: " + r.value
                                    && forall k :: 0 <= k < i ==> !("data: " <= Split(frame, '\n')[k])
  {
    var lines := Lines(frame);
    for i := 0 to |lines|
      invariant Payload(frame) == FirstData(lines[i..])
      invariant forall k :: 0 <= k < i ==> !("data: " <= lines[k])
    {
      assert lines[i..][1..] == lines[i + 1..];
      if "data: " <= lines[i] {
        assert lines == Split(frame, '\n') && lines[i] == "data: " + lines[i][6..];
        return Some(lines[i][6..]);
      }
    }
    return None;
  }

  // ------------------------------------------------------------ what the server writes

  /** One event of the handler. */
  function Event(line: string): string { "data: " + line + SEP }

  function Written(lines: seq<string>): string {
    if lines == [] then "" else Event(lines[0]) + Written(lines[1..])
  }

  predicate BreakAt(s: string, i: int) { 0 <= i < |s| - 1 && s[i] == '\n' && s[i + 1] == '\n' }

  /** A text without an empty line is one frame. */
  lemma {:induction false} WholeFrame(s: string)
    requires forall i :: !BreakAt(s, i)
    ensures Frames(s) == [s]
    decreases s
  {
    if s != "" {
      assert !BreakAt(s, 0);
      assert forall i :: BreakAt(s[1..], i) ==> BreakAt(s, i + 1);
      WholeFrame(s[1..]);
      assert [s[0]] + s[1..] == s;
    }
  }

  /** The first separator ends the first frame, and the rest is split on its own: with `WholeFrame` this
      is all of `split`. */
  lemma {:induction false} FrameThenRest(x: string, rest: string)
    requires forall i :: !BreakAt(x + "\n", i)
    ensures Frames(x + SEP + rest) == [x] + Frames(rest)
    decreases x
  {
    var s := x + SEP + rest;
    if x == "" {
      assert s[2..] == rest && s[..2] == SEP;
    } else {
      BreaksOfTail(x);
      FrameThenRest(x[1..], rest);
      assert x == [x[0]] + x[1..];
      assert s == [x[0]] + (x[1..] + SEP + rest);
      assert !BreakAt(x + "\n", 0);
      FramesOf(x[0], x[1..] + SEP + rest);
    }
  }

  lemma BreaksOfTail(x: string)
    requires x != "" && forall i :: !BreakAt(x + "\n", i)
    ensures forall i :: !BreakAt(x[1..] + "\n", i)
  {
    assert (x + "\n")[1..] == x[1..] + "\n";
    assert forall i :: BreakAt(x[1..] + "\n", i) ==> BreakAt(x + "\n", i + 1);
  }

  lemma FramesOf(c: char, s: string)
    requires !BreakAt([c] + s, 0)
    ensures Frames([c] + s) == Prepend(c, Frames(s))
  {
    assert ([c] + s)[1..] == s;
    assert s != "" ==> ([c] + s)[1] == s[0];
    assert SEP[0] == SEP[1] == '\n';
  }

  lemma LineHasNoBreak(x: string)
    requires '\n' !in x
    ensures forall i :: !BreakAt(x + "\n", i)
  {
    forall i ensures !BreakAt(x + "\n", i) {
      assert 0 <= i < |x| ==> (x + "\n")[i] in x;
    }
  }

  function DataLines(lines: seq<string>): seq<string> {
    seq(|lines|, i requires 0 <= i < |lines| => "data: " + lines[i])
  }

  lemma {:induction false} WrittenFrames(lines: seq<string>)
    requires forall l :: l in lines ==> '\n' !in l
    ensures Frames(Written(lines)) == DataLines(lines) + [""]
    decreases |lines|
  {
    if lines != [] {
      var rest := Written(lines[1..]);
      WrittenFrames(lines[1..]);
      LineHasNoBreak("data: " + lines[0]);
      FrameThenRest("data: " + lines[0], rest);
      assert Written(lines) == "data: " + lines[0] + SEP + rest;
      assert DataLines(lines) == ["data: " + lines[0]] + DataLines(lines[1..]);
    }
  }

  lemma DataLinePayload(line: string)
    requires '\n' !in line
    ensures Payload("data: " + line) == Some(line)
  {
    SplitFirst("data: " + line, '\n', "");
    assert ("data: " + line)[6..] == line;
  }

  lemma {:induction false} PayloadsOfDataLines(lines: seq<string>)
    requires forall l :: l in lines ==> '\n' !in l
    ensures Payloads(DataLines(lines)) == lines
    decreases |lines|
  {
    if lines != [] {
      var init, last := lines[..|lines| - 1], lines[|lines| - 1];
      PayloadsOfDataLines(init);
      assert Init(DataLines(lines)) == DataLines(init);
      DataLinePayload(last);
    }
  }

  /** Round trip: whatever the server writes, the client shows those lines in that order. */
  lemma RoundTrip(lines: seq<string>)
    requires forall l :: l in lines ==> '\n' !in l
    ensures Payloads(Init(Frames(Written(lines)))) == lines && Last(Frames(Written(lines))) == ""
  {
    WrittenFrames(lines);
    PayloadsOfDataLines(lines);
    assert Init(DataLines(lines) + [""]) == DataLines(lines);
  }

  lemma {:induction false} WrittenSplit(lines: seq<string>, k: nat)
    requires k <= |lines|
    ensures Written(lines) == Written(lines[..k]) + Written(lines[k..])
    decreases k
  {
    if k == 0 {
      assert lines[0..] == lines && Written(lines[..0]) == "";
    } else {
      WrittenSplit(lines[1..], k - 1);
      var first := lines[..k];
      assert lines[1..][..k - 1] == first[1..] && lines[1..][k - 1..] == lines[k..] && first[0] == lines[0];
      Associates(Event(lines[0]), Written(first[1..]), Written(lines[k..]));
    }
  }

  lemma Associates(a: string, b: string, c: string)
    ensures a + (b + c) == (a + b) + c
  {
  }

  /** The events of the first k lines are in the part, and no more of them. */
  ghost predicate Complete(lines: seq<string>, part: string, k: nat)
    requires k <= |lines|
  {
    Written(lines[..k]) <= part && (k < |lines| ==> !(Written(lines[..k + 1]) <= part))
  }

  lemma {:induction false} SomeComplete(lines: seq<string>, part: string, from: nat) returns (k: nat)
    requires from <= |lines| && Written(lines[..from]) <= part
    ensures k <= |lines| && Complete(lines, part, k)
    decreases |lines| - from
  {
    k := from;
    if from < |lines| && Written(lines[..from + 1]) <= part {
      k := SomeComplete(lines, part, from + 1);
    }
  }

  /** What is left of the part after its complete events is the beginning of an event, without an empty line. */
  lemma TailHasNoBreak(lines: seq<string>, part: string, k: nat)
    requires (forall l :: l in lines ==> '\n' !in l) && part <= Written(lines)
    requires k <= |lines| && Complete(lines, part, k)
    ensures forall i :: !BreakAt(part[|Written(lines[..k])|..], i)
  {
    var done := Written(lines[..k]);
    var tail := part[|done|..];
    WrittenSplit(lines, k);
    assert part == done + tail;
    assert tail <= Written(lines[k..]);
    if k < |lines| {
      var line := "data: " + lines[k];
      assert lines[k..][1..] == lines[k + 1..];
      assert Written(lines[k..]) == (line + SEP) + Written(lines[k + 1..]);
      WrittenSplit(lines[..k + 1], k);
      assert lines[..k + 1][..k] == lines[..k] && lines[..k + 1][k..] == [lines[k]];
      OneEvent(lines[k]);
      assert Written(lines[..k + 1]) == done + (line + SEP);
      assert line + SEP <= tail ==> done + (line + SEP) <= done + tail;
      assert |tail| < |line + SEP|;
      assert tail <= line + "\n";
      LineHasNoBreak(line);
      assert forall i :: BreakAt(tail, i) ==> BreakAt(line + "\n", i);
    }
  }

  lemma OneEvent(line: string)
    ensures Written([line]) == "data: " + line + SEP
  {
    assert [line][1..] == [];
  }

  /** After any part of the stream the client has shown exactly the lines whose events are complete. */
  lemma PrefixShowsComplete(lines: seq<string>, part: string, k: nat)
    requires (forall l :: l in lines ==> '\n' !in l) && part <= Written(lines)
    requires k <= |lines| && Complete(lines, part, k)
    ensures Payloads(Init(Frames(part))) == lines[..k]
  {
    var done := Written(lines[..k]);
    var tail := part[|done|..];
    assert part == done + tail;
    TailHasNoBreak(lines, part, k);
    WholeFrame(tail);
    WrittenFrames(lines[..k]);
    Resume(done, tail);
    var data := DataLines(lines[..k]);
    assert Init(data + [""]) == data && Last(data + [""]) == "" && "" + tail == tail;
    assert Frames(part) == data + [tail];
    assert Init(data + [tail]) == data;
    PayloadsOfDataLines(lines[..k]);
  }

  /** After any part of the stream the client has shown a prefix of the lines. */
  lemma PrefixShowsPrefix(lines: seq<string>, part: string)
    requires (forall l :: l in lines ==> '\n' !in l) && part <= Written(lines)
    ensures Payloads(Init(Frames(part))) <= lines
  {
    assert Written(lines[..0]) == "" <= part;
    var k := SomeComplete(lines, part, 0);
    PrefixShowsComplete(lines, part, k);
  }

  // ------------------------------------------------------------ the capped buffer

  /** The newest lines that fit. */
  function Newest(lines: seq<string>): seq<string> {
    if |lines| > BUFFER_CAP then lines[|lines| - BUFFER_CAP..] else lines
  }

  /** The state setter, once for each line: the view is the end of the list. */
  method ShowLines(lines: seq<string>) returns (shown: seq<string>)
    ensures |shown| == if |lines| < 3000 then |lines| else 3000
    ensures forall i :: 0 <= i < |shown| ==> shown[i] == lines[|lines| - |shown| + i]
  {
    shown := [];
    assert lines[..|lines|] == lines;
    for i := 0 to |lines|
      invariant shown == Newest(lines[..i])
    {
      var next := shown + [lines[i]];
      shown := if |next| > BUFFER_CAP then next[|next| - BUFFER_CAP..] else next;
    }
  }

  /** End to end: however the stream of the handler is cut into chunks, every line is handed on in its
      order and the view is the newest of them. */
  method ViewLogs(chunks: seq<string>, ghost lines: seq<string>) returns (emitted: seq<string>, shown: seq<string>)
    requires (forall l :: l in lines ==> '\n' !in l) && Concat(chunks) == Written(lines)
    ensures emitted == lines && |shown| == if |lines| < 3000 then |lines| else 3000
    ensures forall i :: 0 <= i < |shown| ==> shown[i] == lines[|lines| - |shown| + i]
  {
    var buffer;
    emitted, buffer := StreamCaddyLogs(chunks);
    RoundTrip(lines);
    shown := ShowLines(emitted);
  }

  /** Cut off anywhere, the same holds of exactly the lines whose events are complete. */
  method ViewCutOff(chunks: seq<string>, ghost lines: seq<string>) returns (emitted: seq<string>, shown: seq<string>)
    requires (forall l :: l in lines ==> '\n' !in l) && Concat(chunks) <= Written(lines)
    ensures |emitted| <= |lines| && emitted == lines[..|emitted|] && Complete(lines, Concat(chunks), |emitted|)
    ensures |shown| == if |emitted| < 3000 then |emitted| else 3000
    ensures forall i :: 0 <= i < |shown| ==> shown[i] == emitted[|emitted| - |shown| + i]
  {
    var buffer;
    emitted, buffer := StreamCaddyLogs(chunks);
    assert Written(lines[..0]) == "" <= Concat(chunks);
    ghost var k := SomeComplete(lines, Concat(chunks), 0);
    PrefixShowsComplete(lines, Concat(chunks), k);
    shown := ShowLines(emitted);
  }
}

/**
 The incremental decoder of the account event stream (frontend/src/lib/accountSync.ts) and the
 frames the hub writes (backend/internal/accountchanges/hub.go).

 The stream format is that of sections 9.2.5 and 9.2.6 of the WHATWG HTML Living Standard, read the
 way the decoder reads it. `parse` stands for JSON.parse followed by the check of kind and
 revision; it has no value where those throw.
 */
module AccountEvents {
  import opened Wrappers
  import Text

  const LIMIT := 16384
  const DATA := "data:"

  datatype Kind = Ready | Change | Heartbeat | Unavailable

  datatype Event = Event(kind: Kind, revision: string)

  type Parser = string -> Option<Event>

  /** What a frame emits; no value for a frame that throws. */
  type Handler = string -> Option<seq<Event>>

  // ---- line ends ----

  predicate CrLfAt(s: string, i: int) {
    0 <= i && i + 1 < |s| && s[i] == '\r' && s[i + 1] == '\n'
  }

  ghost predicate NoCrLf(s: string) {
    forall i :: !CrLfAt(s, i)
  }

  predicate CrCrLfAt(s: string, i: int) {
    0 <= i && i + 2 < |s| && s[i] == '\r' && s[i + 1] == '\r' && s[i + 2] == '\n'
  }

  ghost predicate NoCrCrLf(s: string) {
    forall i :: !CrCrLfAt(s, i)
  }

  /** Every carriage return that a line feed follows is dropped. */
  function Normalise(s: string): string {
    if s == "" then ""
    else if CrLfAt(s, 0) then [s[1]] + Normalise(s[2..])
    else [s[0]] + Normalise(s[1..])
  }

  lemma {:induction false} NormaliseKeepsPlain(x: string, y: string)
    requires NoCrLf(x) && (x == "" || x[|x| - 1] != '\r' || y == "")
    ensures Normalise(x + y) == x + Normalise(y)
  {
    if x == "" {
      assert x + y == y;
    } else {
      assert !CrLfAt(x, 0);
      assert !CrLfAt(x + y, 0);
      assert (x + y)[1..] == x[1..] + y;
      forall i ensures !CrLfAt(x[1..], i) {
        assert !CrLfAt(x, i + 1);
      }
      NormaliseKeepsPlain(x[1..], y);
    }
  }

  lemma NormaliseOne(c: char, rest: string)
    requires c != '\r' || rest == "" || rest[0] != '\n'
    ensures Normalise([c] + rest) == [c] + Normalise(rest)
  {
    assert ([c] + rest)[1..] == rest;
  }

  lemma NormalisePair(rest: string)
    ensures Normalise(['\r', '\n'] + rest) == ['\n'] + Normalise(rest)
  {
    assert (['\r', '\n'] + rest)[2..] == rest;
  }

  lemma DropKeepsNoCrCrLf(s: string, n: nat)
    requires n <= |s| && NoCrCrLf(s)
    ensures NoCrCrLf(s[n..])
  {
    forall i ensures !CrCrLfAt(s[n..], i) {
      assert !CrCrLfAt(s, n + i);
    }
  }

  lemma PrefixKeepsNoCrCrLf(s: string, t: string)
    requires NoCrCrLf(t) && s <= t
    ensures NoCrCrLf(s)
  {
    forall i ensures !CrCrLfAt(s, i) {
      assert !CrCrLfAt(t, i);
    }
  }

  lemma NormaliseStart(s: string)
    requires s != "" && NoCrCrLf(s)
    ensures Normalise(s) != ""
    ensures s[0] == '\r' && !CrLfAt(s, 0) ==>
              Normalise(s)[0] == '\r' && (|Normalise(s)| > 1 ==> |s| > 1 && Normalise(s)[1] != '\n')
    ensures s[0] != '\r' ==> Normalise(s)[0] == s[0]
    ensures CrLfAt(s, 0) ==> Normalise(s)[0] == '\n'
  {
    if s[0] == '\r' && !CrLfAt(s, 0) && |s| > 1 {
      assert !CrCrLfAt(s, 0);
      assert Normalise(s)[1] == Normalise(s[1..])[0];
    }
  }

  /** Normalising leaves no pair behind, unless two carriage returns preceded a line feed. */
  lemma {:induction false} NormaliseLeavesNoCrLf(s: string)
    requires NoCrCrLf(s)
    ensures NoCrLf(Normalise(s))
  {
    if s != "" {
      var skip := if CrLfAt(s, 0) then 2 else 1;
      DropKeepsNoCrCrLf(s, skip);
      NormaliseLeavesNoCrLf(s[skip..]);
      NormaliseStart(s);
      forall i ensures !CrLfAt(Normalise(s), i) {
        assert i > 0 ==> !CrLfAt(Normalise(s[skip..]), i - 1);
      }
    }
  }

  lemma {:induction false} NormalisedStartIsSafe(a: string, b: string)
    requires NoCrCrLf(a + b)
    ensures NoCrCrLf(Normalise(a) + b)
  {
    if a == "" {
      assert Normalise(a) + b == a + b;
    } else {
      var skip := if CrLfAt(a, 0) then 2 else 1;
      assert (a + b)[skip..] == a[skip..] + b;
      DropKeepsNoCrCrLf(a + b, skip);
      NormalisedStartIsSafe(a[skip..], b);
      var later := Normalise(a[skip..]) + b;
      assert Normalise(a) + b == [Normalise(a)[0]] + later;
      if |a| == 1 {
        assert Normalise(a) == a;
      } else {
        NormaliseSeam(a, b);
        forall i ensures !CrCrLfAt(Normalise(a) + b, i) {
          assert i > 0 ==> !CrCrLfAt(later, i - 1);
        }
      }
    }
  }

  /** Text that was normalised before more arrived is normalised as if it had arrived together. */
  lemma {:induction false} NormaliseAgain(a: string, b: string)
    requires NoCrCrLf(a + b)
    ensures Normalise(Normalise(a) + b) == Normalise(a + b)
  {
    if a == "" {
      assert Normalise(a) + b == a + b;
    } else if |a| == 1 {
      assert Normalise(a) == a;
    } else {
      var skip := if CrLfAt(a, 0) then 2 else 1;
      var rest, c := a[skip..], Normalise(a)[0];
      DropJoined(a, skip, b);
      DropKeepsNoCrCrLf(a + b, skip);
      NormaliseAgain(rest, b);
      NormaliseSeam(a, b);
      ConsJoined(c, Normalise(rest), b);
      NormaliseOne(c, Normalise(rest) + b);
      assert CrLfAt(a + b, 0) <==> CrLfAt(a, 0);
    }
  }

  lemma DropJoined(a: string, n: nat, b: string)
    requires n <= |a|
    ensures (a + b)[n..] == a[n..] + b
  {
  }

  lemma ConsJoined(c: char, x: string, y: string)
    ensures ([c] + x) + y == [c] + (x + y)
  {
  }

  lemma NormaliseSeam(a: string, b: string)
    requires |a| > 1 && NoCrCrLf(a + b)
    ensures !CrLfAt(Normalise(a) + b, 0) && !CrCrLfAt(Normalise(a) + b, 0)
  {
    forall i ensures !CrCrLfAt(a, i) {
      assert !CrCrLfAt(a + b, i);
    }
    NormaliseStart(a);
    assert !CrCrLfAt(a + b, 0) && !CrCrLfAt(a + b, 1);
    if a[0] == '\r' && !CrLfAt(a, 0) {
      DropKeepsNoCrCrLf(a, 1);
      NormaliseStart(a[1..]);
      assert Normalise(a) == [a[0]] + Normalise(a[1..]);
      if |a| == 2 { assert Normalise(a[1..]) == a[1..]; }
    }
  }

  // ---- frames ----

  predicate EndAt(s: string, i: int) {
    0 <= i && i + 1 < |s| && s[i] == '\n' && s[i + 1] == '\n'
  }

  function EndFrom(s: string, i: nat): (e: nat)
    requires i <= |s|
    ensures e == |s| || e + 2 <= |s|
    decreases |s| - i
  {
    if i + 2 > |s| then |s| else if EndAt(s, i) then i else EndFrom(s, i + 1)
  }

  /** Where the first empty line ends a frame, or the length when none does. */
  function End(s: string): (e: nat)
    ensures e == |s| || e + 2 <= |s|
  {
    EndFrom(s, 0)
  }

  lemma {:induction false} EndFromIsFirst(s: string, i: nat)
    requires i <= |s|
    ensures EndFrom(s, i) == |s| || EndAt(s, EndFrom(s, i))
    ensures forall j :: i <= j < EndFrom(s, i) ==> !EndAt(s, j)
    decreases |s| - i
  {
    if i + 2 <= |s| && !EndAt(s, i) { EndFromIsFirst(s, i + 1); }
  }

  lemma EndIsFirst(s: string)
    ensures End(s) == |s| || EndAt(s, End(s))
    ensures forall i :: i < End(s) ==> !EndAt(s, i)
  {
    EndFromIsFirst(s, 0);
  }

  predicate Complete(s: string) { End(s) < |s| }

  /** The complete frames of a text, and what follows the last of them. */
  datatype Pieces = Pieces(frames: seq<string>, tail: string)

  function Cut(s: string): Pieces {
    if !Complete(s) then Pieces([], s)
    else
      var rest := Cut(s[End(s) + 2..]);
      Pieces([s[..End(s)]] + rest.frames, rest.tail)
  }

  function Lines(s: string): (r: seq<string>)
    ensures r != []
  {
    if s == "" then [""]
    else
      var r := Lines(s[1..]);
      if s[0] == '\n' then [""] + r else [[s[0]] + r[0]] + r[1..]
  }

  /** The data lines of a frame, without their field name. */
  function DataLines(lines: seq<string>): seq<string> {
    if lines == [] then []
    else
      (if Text.HasPrefix(lines[0], DATA) then [Text.TrimLeft(lines[0][5..])] else []) + DataLines(lines[1..])
  }

  function JoinLines(lines: seq<string>): string {
    if lines == [] then ""
    else if |lines| == 1 then lines[0]
    else lines[0] + ['\n'] + JoinLines(lines[1..])
  }

  /** Reading the lines of a text undoes joining them. */
  lemma {:induction false} LinesInvertJoin(lines: seq<string>)
    requires lines != [] && forall i :: 0 <= i < |lines| ==> '\n' !in lines[i]
    ensures Lines(JoinLines(lines)) == lines
  {
    if |lines| == 1 {
      LinesOfPlain(lines[0]);
    } else {
      LinesInvertJoin(lines[1..]);
      FirstLine(lines[0], JoinLines(lines[1..]));
      assert [lines[0]] + lines[1..] == lines;
    }
  }

  lemma {:induction false} FirstLine(line: string, rest: string)
    requires '\n' !in line
    ensures Lines(line + ['\n'] + rest) == [line] + Lines(rest)
  {
    var s := line + ['\n'] + rest;
    if line == "" {
      assert s[1..] == rest;
    } else {
      assert s[1..] == line[1..] + ['\n'] + rest;
      FirstLine(line[1..], rest);
      assert [line[0]] + line[1..] == line;
      assert ([line[1..]] + Lines(rest))[1..] == Lines(rest);
    }
  }

  /** A frame without data emits nothing; any other is parsed. */
  function Handle(parse: Parser, frame: string): Option<seq<Event>> {
    var text := JoinLines(DataLines(Lines(frame)));
    if text == "" then Some([])
    else match parse(text)
      case None => None
      case Some(e) => Some([e])
  }

  function Handling(parse: Parser): Handler {
    frame => Handle(parse, frame)
  }

  /** Events emitted, and whether nothing threw. */
  datatype Emitted = Emitted(events: seq<Event>, good: bool)

  function Then(first: Emitted, next: Emitted): Emitted {
    if first.good then Emitted(first.events + next.events, next.good) else first
  }

  function HandleFrame(handle: Handler, frame: string): Emitted {
    if |frame| > LIMIT || handle(frame).None? then Emitted([], false) else Emitted(handle(frame).value, true)
  }

  /** The events of the frames up to the first bad one. */
  function HandleAll(handle: Handler, frames: seq<string>): Emitted {
    if frames == [] then Emitted([], true)
    else Then(HandleFrame(handle, frames[0]), HandleAll(handle, frames[1..]))
  }

  /** What a call emits, and what stays pending unless it throws. */
  datatype Outcome = Outcome(events: seq<Event>, pending: Option<string>)

  function Drain(handle: Handler, s: string): Outcome {
    var Pieces(frames, tail) := Cut(s);
    var emitted := HandleAll(handle, frames);
    Outcome(emitted.events, if emitted.good && |tail| <= LIMIT then Some(tail) else None)
  }

  function Fed(handle: Handler, pending: string, chunk: string): Outcome {
    Drain(handle, Normalise(pending + chunk))
  }

  /** The stream is given up at the first call that throws. */
  function FeedAll(handle: Handler, pending: string, chunks: seq<string>): Outcome
    decreases |chunks|
  {
    if chunks == [] then Outcome([], Some(pending))
    else
      var first := Fed(handle, pending, chunks[0]);
      if first.pending.None? then first
      else
        var rest := FeedAll(handle, first.pending.value, chunks[1..]);
        Outcome(first.events + rest.events, rest.pending)
  }

  function Concat(chunks: seq<string>): string {
    if chunks == [] then "" else chunks[0] + Concat(chunks[1..])
  }

  // ---- complete frames do not depend on what follows ----

  const LF_LF := ['\n', '\n']

  /** Text that an empty line may end: it holds none itself. */
  ghost predicate IsFrame(s: string) {
    (forall i :: !EndAt(s, i)) && (s != "" ==> s[|s| - 1] != '\n')
  }

  lemma EndIs(s: string, e: nat)
    requires EndAt(s, e) && forall i :: i < e ==> !EndAt(s, i)
    ensures End(s) == e
  {
    EndIsFirst(s);
  }

  lemma NoEndAnywhere(s: string)
    requires forall i :: !EndAt(s, i)
    ensures !Complete(s)
  {
    EndIsFirst(s);
  }

  lemma EndAfterFrame(frame: string, after: string)
    requires IsFrame(frame)
    ensures Complete(frame + LF_LF + after) && End(frame + LF_LF + after) == |frame|
  {
    var s := frame + LF_LF + after;
    assert EndAt(s, |frame|);
    forall i | i < |frame| ensures !EndAt(s, i) {
      if 0 <= i {
        assert s[i] == frame[i] && !EndAt(frame, i);
        if i + 1 < |frame| { assert s[i + 1] == frame[i + 1]; }
      }
    }
    EndIs(s, |frame|);
  }

  lemma SliceJoined(frame: string, after: string)
    ensures (frame + LF_LF + after)[..|frame|] == frame && (frame + LF_LF + after)[|frame| + 2..] == after
  {
  }

  lemma CutFirst(frame: string, after: string)
    requires IsFrame(frame)
    ensures Cut(frame + LF_LF + after) == Pieces([frame] + Cut(after).frames, Cut(after).tail)
  {
    EndAfterFrame(frame, after);
    SliceJoined(frame, after);
  }

  lemma FirstIsFrame(s: string)
    requires Complete(s)
    ensures IsFrame(s[..End(s)]) && s == s[..End(s)] + LF_LF + s[End(s) + 2..]
  {
    var f := s[..End(s)];
    EndIsFirst(s);
    forall i ensures !EndAt(f, i) {
      if 0 <= i && i + 1 < |f| { assert !EndAt(s, i); }
    }
    if f != "" { assert !EndAt(s, |f| - 1); }
  }

  ghost predicate AreFrames(frames: seq<string>) {
    forall f :: f in frames ==> IsFrame(f)
  }

  function Joined(frames: seq<string>): string {
    if frames == [] then "" else frames[0] + LF_LF + Joined(frames[1..])
  }

  lemma JoinAfter(frame: string, joined: string, z: string)
    ensures (frame + LF_LF + joined) + z == frame + LF_LF + (joined + z)
  {
  }

  lemma Reassemble(s: string, frame: string, rest: string, joined: string, tail: string)
    requires s == frame + LF_LF + rest && rest == joined + tail
    ensures s == (frame + LF_LF + joined) + tail
  {
  }

  /** Cutting loses nothing. */
  lemma {:induction false} CutKeepsText(s: string)
    ensures AreFrames(Cut(s).frames) && !Complete(Cut(s).tail)
    ensures s == Joined(Cut(s).frames) + Cut(s).tail
    decreases |s|
  {
    if Complete(s) {
      var f, rest := s[..End(s)], s[End(s) + 2..];
      FirstIsFrame(s);
      CutKeepsText(rest);
      JoinFirst(f, Cut(rest).frames);
      Reassemble(s, f, rest, Joined(Cut(rest).frames), Cut(rest).tail);
    } else {
      assert s == "" + s;
    }
  }

  lemma JoinFirst(frame: string, frames: seq<string>)
    ensures Joined([frame] + frames) == frame + LF_LF + Joined(frames)
  {
    assert ([frame] + frames)[1..] == frames;
  }

  /** Frames stay the same frames whatever follows them. */
  lemma {:induction false} CutJoined(frames: seq<string>, z: string)
    requires AreFrames(frames)
    ensures Cut(Joined(frames) + z) == Pieces(frames + Cut(z).frames, Cut(z).tail)
  {
    if frames == [] {
      assert Joined(frames) + z == z;
      assert [] + Cut(z).frames == Cut(z).frames;
    } else {
      var f, rest := frames[0], frames[1..];
      assert frames == [f] + rest;
      CutJoined(rest, z);
      JoinAfter(f, Joined(rest), z);
      CutFirst(f, Joined(rest) + z);
      assert [f] + (rest + Cut(z).frames) == ([f] + rest) + Cut(z).frames;
    }
  }

  lemma {:induction false} JoinedEndsLine(frames: seq<string>)
    ensures Joined(frames) == "" || Joined(frames)[|Joined(frames)| - 1] == '\n'
  {
    if frames != [] { JoinedEndsLine(frames[1..]); }
  }

  lemma ThenIsAssociative(a: Emitted, b: Emitted, c: Emitted)
    ensures Then(Then(a, b), c) == Then(a, Then(b, c))
  {
    var x, y, z := a.events, b.events, c.events;
    assert (x + y) + z == x + (y + z);
  }

  lemma {:induction false} HandleAllSplits(handle: Handler, frames: seq<string>, more: seq<string>)
    ensures HandleAll(handle, frames + more) == Then(HandleAll(handle, frames), HandleAll(handle, more))
  {
    if frames == [] {
      assert frames + more == more;
      assert [] + HandleAll(handle, more).events == HandleAll(handle, more).events;
    } else {
      assert (frames + more)[1..] == frames[1..] + more;
      HandleAllSplits(handle, frames[1..], more);
      ThenIsAssociative(HandleFrame(handle, frames[0]), HandleAll(handle, frames[1..]), HandleAll(handle, more));
    }
  }

  // ---- what is pending after a prefix of the stream ----

  /** The characters waiting after a prefix of the stream, were there no limit. */
  function Waiting(s: string): string { Cut(Normalise(s)).tail }

  lemma PlainParts(x: string, y: string)
    requires NoCrLf(x + y)
    ensures NoCrLf(x) && NoCrLf(y)
  {
    forall i ensures !CrLfAt(x, i) && !CrLfAt(y, i) {
      assert !CrLfAt(x + y, i) && !CrLfAt(x + y, |x| + i);
    }
  }

  lemma DropOfJoined(x: string, y: string)
    ensures (x + y)[|x|..] == y
  {
  }

  lemma JoinIsAssociative(x: string, y: string, z: string)
    ensures (x + y) + z == x + (y + z)
  {
  }

  /** After a, the rest b is normalised and cut as if it had arrived together with what waits. */
  lemma TextReadOn(a: string, b: string)
    requires NoCrCrLf(a + b)
    ensures var w := Waiting(a);
            var more := Cut(Normalise(w + b));
            && NoCrCrLf(w + b) && !Complete(w) && NoCrLf(w)
            && Cut(Normalise(a + b)) == Pieces(Cut(Normalise(a)).frames + more.frames, more.tail)
  {
    var n, w := Normalise(a), Waiting(a);
    var frames := Cut(n).frames;
    var head := Joined(frames);
    NormaliseAgain(a, b);
    NormalisedStartIsSafe(a, b);
    PrefixKeepsNoCrCrLf(a, a + b);
    NormaliseLeavesNoCrLf(a);
    CutKeepsText(n);
    PlainParts(head, w);
    JoinIsAssociative(head, w, b);
    DropKeepsNoCrCrLf(n + b, |head|);
    DropOfJoined(head, w + b);
    JoinedEndsLine(frames);
    NormaliseKeepsPlain(head, w + b);
    CutJoined(frames, Normalise(w + b));
  }

  /** No boundary between chunks falls where more characters wait than the limit allows. */
  ghost predicate Fits(pending: string, chunks: seq<string>) {
    forall i {:trigger chunks[..i]} :: 0 <= i <= |chunks| ==> |Waiting(pending + Concat(chunks[..i]))| <= LIMIT
  }

  lemma {:induction false} ConcatPrefix(chunks: seq<string>, i: nat)
    requires i <= |chunks|
    ensures Concat(chunks[..i]) <= Concat(chunks)
  {
    if i > 0 {
      ConcatPrefix(chunks[1..], i - 1);
      assert chunks[..i][1..] == chunks[1..][..i - 1];
    }
  }

  lemma ConcatTake(chunks: seq<string>, i: nat)
    requires i < |chunks|
    ensures Concat(chunks[..i + 1]) == chunks[0] + Concat(chunks[1..][..i])
  {
    assert chunks[..i + 1][1..] == chunks[1..][..i];
  }

  lemma WaitingAfterChunk(pending: string, chunks: seq<string>, i: nat)
    requires i < |chunks| && NoCrCrLf(pending + Concat(chunks))
    ensures Waiting(Waiting(pending + chunks[0]) + Concat(chunks[1..][..i]))
            == Waiting(pending + Concat(chunks[..i + 1]))
  {
    ConcatPrefix(chunks, i + 1);
    ConcatTake(chunks, i);
    var whole, a, b := pending + Concat(chunks[..i + 1]), pending + chunks[0], Concat(chunks[1..][..i]);
    assert whole == a + b;
    PrefixKeepsNoCrCrLf(whole, pending + Concat(chunks));
    TextReadOn(a, b);
  }

  lemma FitsStep(pending: string, chunks: seq<string>)
    requires chunks != [] && NoCrCrLf(pending + Concat(chunks)) && |Waiting(pending)| <= LIMIT
    ensures Fits(pending, chunks) <==> Fits(Waiting(pending + chunks[0]), chunks[1..])
  {
    var w, rest := Waiting(pending + chunks[0]), chunks[1..];
    if Fits(pending, chunks) {
      forall i | 0 <= i <= |rest| ensures |Waiting(w + Concat(rest[..i]))| <= LIMIT {
        WaitingAfterChunk(pending, chunks, i);
        assert |Waiting(pending + Concat(chunks[..i + 1]))| <= LIMIT;
      }
    } else {
      var i :| 0 <= i <= |chunks| && |Waiting(pending + Concat(chunks[..i]))| > LIMIT;
      assert pending + Concat(chunks[..0]) == pending;
      WaitingAfterChunk(pending, chunks, i - 1);
      assert |Waiting(w + Concat(rest[..i - 1]))| > LIMIT;
    }
  }

  lemma WaitingIsSettled(w: string)
    requires NoCrLf(w) && !Complete(w)
    ensures Normalise(w) == w && Waiting(w) == w
  {
    NormaliseKeepsPlain(w, "");
    assert w + "" == w;
  }

  lemma FitsFirst(pending: string, chunks: seq<string>)
    requires chunks != [] && Fits(pending, chunks)
    ensures |Waiting(pending + chunks[0])| <= LIMIT
  {
    assert chunks[..1][1..] == [];
    assert Concat(chunks[..1]) == chunks[0] + "" == chunks[0];
  }

  /** A call, and then the rest in one call, against everything in one call. */
  lemma DrainReadOn(handle: Handler, a: string, b: string)
    requires NoCrCrLf(a + b)
    ensures var w := Waiting(a);
            var first, rest, whole := Drain(handle, Normalise(a)), Drain(handle, Normalise(w + b)), Drain(handle, Normalise(a + b));
            && (first.pending.Some? ==>
                  first.pending.value == w && |w| <= LIMIT && whole == Outcome(first.events + rest.events, rest.pending))
            && (first.pending.None? ==> first.events <= whole.events && (|w| <= LIMIT ==> whole == first))
  {
    TextReadOn(a, b);
    HandleAllSplits(handle, Cut(Normalise(a)).frames, Cut(Normalise(Waiting(a) + b)).frames);
  }

  lemma FeedAllStep(handle: Handler, pending: string, chunks: seq<string>)
    requires chunks != []
    ensures var first := Fed(handle, pending, chunks[0]);
            && (first.pending.None? ==> FeedAll(handle, pending, chunks) == first)
            && (first.pending.Some? ==>
                  var rest := FeedAll(handle, first.pending.value, chunks[1..]);
                  FeedAll(handle, pending, chunks) == Outcome(first.events + rest.events, rest.pending))
  {
  }

  /** Feeding chunk by chunk agrees with feeding the whole while the boundaries fit, and emits at
      most a prefix of its events otherwise. */
  lemma {:induction false} ChunksAgree(handle: Handler, pending: string, chunks: seq<string>)
    requires NoCrCrLf(pending + Concat(chunks)) && NoCrLf(pending) && !Complete(pending) && |pending| <= LIMIT
    ensures var (split, whole) := (FeedAll(handle, pending, chunks), Drain(handle, Normalise(pending + Concat(chunks))));
            && split.events <= whole.events
            && (Fits(pending, chunks) ==> split == whole)
            && (split.pending.Some? ==> Fits(pending, chunks))
    decreases |chunks|
  {
    WaitingIsSettled(pending);
    if chunks == [] {
      assert pending + Concat(chunks) == pending;
    } else {
      var a, rest := pending + chunks[0], chunks[1..];
      JoinIsAssociative(pending, chunks[0], Concat(rest));
      TextReadOn(a, Concat(rest));
      DrainReadOn(handle, a, Concat(rest));
      FitsStep(pending, chunks);
      FeedAllStep(handle, pending, chunks);
      if Fits(pending, chunks) { FitsFirst(pending, chunks); }
      if |Waiting(a)| <= LIMIT { ChunksAgree(handle, Waiting(a), rest); }
    }
  }

  /** A stream without CR CR LF that is decoded whole without failing is decoded alike in chunks if
      and only if no boundary leaves more characters waiting than the limit. */
  lemma ChunkingIsInvisibleIffItFits(handle: Handler, chunks: seq<string>)
    requires NoCrCrLf(Concat(chunks)) && Fed(handle, "", Concat(chunks)).pending.Some?
    ensures FeedAll(handle, "", chunks) == Fed(handle, "", Concat(chunks)) <==> Fits("", chunks)
  {
    assert "" + Concat(chunks) == Concat(chunks);
    ChunksAgree(handle, "", chunks);
  }

  // ---- frames a little below the limit always fit ----

  /** Every frame, and what follows the last, leaves room for a line feed and a carriage return. */
  ghost predicate ShortFrames(s: string) {
    (forall f :: f in Cut(s).frames ==> |f| <= LIMIT - 2) && |Cut(s).tail| <= LIMIT - 2
  }

  lemma UnfinishedPrefix(n: string, k: nat)
    requires k <= |n| && k < End(n) + 2
    ensures !Complete(n[..k]) && !Complete(n[..k] + ['\r'])
  {
    var m := n[..k];
    EndIsFirst(n);
    forall i ensures !EndAt(m, i) && !EndAt(m + ['\r'], i) {
      assert i < End(n) ==> !EndAt(n, i);
    }
    NoEndAnywhere(m);
    NoEndAnywhere(m + ['\r']);
  }

  lemma TakeJoined(frame: string, rest: string, k: nat)
    requires k <= |rest|
    ensures (frame + LF_LF + rest)[..|frame| + 2 + k] == frame + LF_LF + rest[..k]
  {
  }

  lemma PrefixAfterFrame(frame: string, rest: string, j: nat)
    requires IsFrame(frame) && j <= |rest|
    ensures var m := (frame + LF_LF + rest)[..|frame| + 2 + j];
            Cut(m).tail == Cut(rest[..j]).tail && Cut(m + ['\r']).tail == Cut(rest[..j] + ['\r']).tail
  {
    TakeJoined(frame, rest, j);
    CutFirst(frame, rest[..j]);
    CutFirst(frame, rest[..j] + ['\r']);
    JoinAfter(frame, rest[..j], ['\r']);
  }

  lemma {:induction false} PrefixOfFramesWaitsShort(frames: seq<string>, tail: string, n: string, k: nat)
    requires AreFrames(frames) && !Complete(tail) && n == Joined(frames) + tail && k <= |n|
    requires (forall f :: f in frames ==> |f| <= LIMIT - 2) && |tail| <= LIMIT - 2
    ensures |Cut(n[..k]).tail| < LIMIT && |Cut(n[..k] + ['\r']).tail| <= LIMIT
  {
    if frames == [] {
      assert n == tail;
      UnfinishedPrefix(tail, k);
    } else {
      var f, rest := frames[0], Joined(frames[1..]) + tail;
      JoinAfter(f, Joined(frames[1..]), tail);
      EndAfterFrame(f, rest);
      if k < |f| + 2 {
        UnfinishedPrefix(n, k);
      } else {
        PrefixOfFramesWaitsShort(frames[1..], tail, rest, k - |f| - 2);
        PrefixAfterFrame(f, rest, k - |f| - 2);
      }
    }
  }

  lemma PrefixWaitsShort(n: string, k: nat)
    requires ShortFrames(n) && k <= |n|
    ensures |Cut(n[..k]).tail| < LIMIT && |Cut(n[..k] + ['\r']).tail| <= LIMIT
  {
    CutKeepsText(n);
    PrefixOfFramesWaitsShort(Cut(n).frames, Cut(n).tail, n, k);
  }

  /** Normalising a prefix gives a prefix of the normalised stream, up to a carriage return that still
      waits for its line feed. */
  lemma {:induction false} NormalisedPrefix(a: string, b: string) returns (k: nat)
    requires NoCrCrLf(a + b)
    ensures k <= |Normalise(a + b)|
    ensures Normalise(a) == Normalise(a + b)[..k] || Normalise(a) == Normalise(a + b)[..k] + ['\r']
  {
    if a == "" {
      k := 0;
    } else if |a| == 1 && CrLfAt(a + b, 0) {
      assert a == "" + ['\r'];
      k := 0;
    } else {
      var skip := if CrLfAt(a, 0) then 2 else 1;
      assert (a + b)[skip..] == a[skip..] + b;
      DropKeepsNoCrCrLf(a + b, skip);
      assert CrLfAt(a + b, 0) <==> CrLfAt(a, 0);
      var j := NormalisedPrefix(a[skip..], b);
      k := j + 1;
    }
  }

  lemma ShortFramesFit(a: string, whole: string)
    requires a <= whole && NoCrCrLf(whole) && ShortFrames(Normalise(whole))
    ensures |Waiting(a)| <= LIMIT
  {
    var b := whole[|a|..];
    assert a + b == whole;
    var k := NormalisedPrefix(a, b);
    PrefixWaitsShort(Normalise(a + b), k);
  }

  /** For a stream without CR CR LF whose frames stay two characters below the limit, every split
      into chunks is decoded like the whole: the same events, and the same failure if there is one. */
  lemma ShortFramesChunkInvisibly(handle: Handler, chunks: seq<string>)
    requires NoCrCrLf(Concat(chunks)) && ShortFrames(Normalise(Concat(chunks)))
    ensures FeedAll(handle, "", chunks) == Fed(handle, "", Concat(chunks))
  {
    assert "" + Concat(chunks) == Concat(chunks);
    forall i | 0 <= i <= |chunks| ensures |Waiting("" + Concat(chunks[..i]))| <= LIMIT {
      ConcatPrefix(chunks, i);
      assert "" + Concat(chunks[..i]) == Concat(chunks[..i]);
      ShortFramesFit(Concat(chunks[..i]), Concat(chunks));
    }
    ChunksAgree(handle, "", chunks);
  }

  // ---- where the split does show ----

  /** Text without line ends. */
  predicate Plain(s: string) { '\r' !in s && '\n' !in s }

  lemma NormaliseAfterPlain(frame: string, raw: string)
    requires Plain(frame)
    ensures Normalise(frame + raw) == frame + Normalise(raw)
  {
    forall i ensures !CrLfAt(frame, i) {
      if 0 <= i < |frame| { assert frame[i] in frame; }
    }
    NormaliseKeepsPlain(frame, raw);
  }

  lemma NormaliseNoCr(s: string)
    requires '\r' !in s
    ensures Normalise(s) == s && NoCrCrLf(s)
  {
    forall i ensures !CrLfAt(s, i) && !CrCrLfAt(s, i) {
      if 0 <= i < |s| { assert s[i] in s; }
    }
    NormaliseKeepsPlain(s, "");
    assert s + "" == s;
  }

  lemma NoEnd(frame: string, after: string)
    requires Plain(frame) && !Complete(after)
    ensures !Complete(frame + after)
  {
    var s := frame + after;
    EndIsFirst(after);
    forall i ensures !EndAt(s, i) {
      if 0 <= i < |frame| {
        assert s[i] in frame;
      } else if EndAt(s, i) {
        assert EndAt(after, i - |frame|);
      }
    }
    NoEndAnywhere(s);
  }

  lemma {:induction false} HandlesAllIff(handle: Handler, frames: seq<string>)
    ensures HandleAll(handle, frames).good <==> forall f :: f in frames ==> |f| <= 16384 && handle(f).Some?
  {
    if frames != [] { HandlesAllIff(handle, frames[1..]); }
  }

  /** A call throws if and only if a frame it completes is longer than 16384 characters or does not parse,
      or what it leaves pending is longer than that. */
  lemma ThrowsIff(handle: Handler, pending: string, chunk: string)
    ensures var Pieces(frames, tail) := Cut(Normalise(pending + chunk));
            Fed(handle, pending, chunk).pending
            == if (forall f :: f in frames ==> |f| <= 16384 && handle(f).Some?) && |tail| <= 16384 then Some(tail) else None
  {
    HandlesAllIff(handle, Cut(Normalise(pending + chunk)).frames);
  }

  lemma PlainIsFrame(s: string)
    requires Plain(s)
    ensures IsFrame(s)
  {
    forall i ensures !EndAt(s, i) {
      if 0 <= i < |s| { assert s[i] in s; }
    }
  }

  lemma DrainUnfinished(handle: Handler, s: string)
    requires !Complete(s)
    ensures Drain(handle, s) == Outcome([], if |s| <= LIMIT then Some(s) else None)
  {
  }

  lemma DrainOne(handle: Handler, frame: string, after: string)
    requires Plain(frame) && |frame| <= LIMIT && handle(frame).Some? && !Complete(after) && |after| <= LIMIT
    ensures Drain(handle, frame + LF_LF + after) == Outcome(handle(frame).value, Some(after))
  {
    PlainIsFrame(frame);
    CutFirst(frame, after);
    assert [frame] + Cut(after).frames == [frame] && [frame][1..] == [];
    assert HandleAll(handle, [frame]) == Then(HandleFrame(handle, frame), Emitted([], true));
    assert handle(frame).value + [] == handle(frame).value;
  }

  lemma FedTwice(handle: Handler, a: string, b: string, pending: string)
    requires Fed(handle, "", a) == Outcome([], Some(pending))
    ensures FeedAll(handle, "", [a, b]) == Fed(handle, pending, b)
  {
    var last := Fed(handle, pending, b);
    assert [a, b][1..] == [b] && [b][1..] == [];
    FeedAllStep(handle, "", [a, b]);
    FeedAllStep(handle, pending, [b]);
    if last.pending.Some? { assert FeedAll(handle, last.pending.value, [b][1..]) == Outcome([], last.pending); }
    assert FeedAll(handle, pending, [a, b][1..]) == last;
    assert [] + last.events == last.events;
  }

  /** A frame of the greatest length is decoded when it arrives in one piece, and fails when only one
      of the two line feeds that end it has arrived. */
  lemma LongestFrameMayNotBeSplit(handle: Handler, frame: string)
    requires |frame| == 16384 && Plain(frame) && handle(frame).Some?
    ensures Fed(handle, "", frame + LF_LF) == Outcome(handle(frame).value, Some(""))
    ensures FeedAll(handle, "", [frame + ['\n'], ['\n']]) == Outcome([], None)
  {
    var part := frame + ['\n'];
    assert "" + part == part && "" + (frame + LF_LF) == frame + LF_LF + "";
    NormaliseNoCr(frame + LF_LF + "");
    DrainOne(handle, frame, "");
    NormaliseNoCr(part);
    NoEnd(frame, ['\n']);
    DrainUnfinished(handle, part);
    assert Fed(handle, "", part) == Outcome([], None);
    FeedAllStep(handle, "", [part, ['\n']]);
  }

  const LF_CR_CR_LF := ['\n', '\r', '\r', '\n']
  const LF_CR_LF := ['\n', '\r', '\n']

  /** CR CR LF between a frame and what follows: read together they are one unfinished frame, but
      when the stream is split there the leftover pair is normalised again and ends the frame. */
  lemma CrCrLfMayNotBeSplit(handle: Handler, frame: string, after: string)
    requires |frame| <= LIMIT - 4 && Plain(frame) && handle(frame).Some? && |after| == 1 && Plain(after)
    ensures Fed(handle, "", frame + (LF_CR_CR_LF + after)) == Outcome([], Some(frame + (LF_CR_LF + after)))
    ensures FeedAll(handle, "", [frame + LF_CR_CR_LF, after]) == Outcome(handle(frame).value, Some(after))
  {
    CrCrLfWaits(handle, frame, after);
    CrCrLfWaits(handle, frame, "");
    assert LF_CR_CR_LF + "" == LF_CR_CR_LF && LF_CR_LF + "" == LF_CR_LF;
    FedTwice(handle, frame + LF_CR_CR_LF, after, frame + LF_CR_LF);
    LeftoverEndsFrame(handle, frame, after);
  }

  lemma LeftoverEndsFrame(handle: Handler, frame: string, after: string)
    requires |frame| <= LIMIT && Plain(frame) && handle(frame).Some? && |after| == 1 && Plain(after)
    ensures Fed(handle, frame + LF_CR_LF, after) == Outcome(handle(frame).value, Some(after))
  {
    PairOnce(LF_CR_LF + after, ['\r', '\n'] + after, after);
    NormaliseAfterPlain(frame, LF_CR_LF + after);
    assert frame + LF_CR_LF + after == frame + (LF_CR_LF + after);
    assert frame + (LF_LF + after) == frame + LF_LF + after;
    DrainOne(handle, frame, after);
  }

  lemma PairOnce(s: string, pair: string, after: string)
    requires s == ['\n'] + pair && pair == ['\r', '\n'] + after && '\r' !in after
    ensures Normalise(s) == LF_LF + after
  {
    NormaliseNoCr(after);
    NormalisePair(after);
    NormaliseOne('\n', pair);
    TwoLines(after);
  }

  lemma TwoLines(after: string)
    ensures ['\n'] + (['\n'] + after) == LF_LF + after
  {
  }

  lemma PairAgain(s: string, rest: string, pair: string, after: string)
    requires s == ['\n'] + rest && rest == ['\r'] + pair && pair == ['\r', '\n'] + after && '\r' !in after
    ensures Normalise(s) == LF_CR_LF + after
  {
    NormaliseNoCr(after);
    NormalisePair(after);
    NormaliseOne('\r', pair);
    NormaliseOne('\n', rest);
    PairText(after);
  }

  lemma PairText(after: string)
    ensures ['\n'] + (['\r'] + (['\n'] + after)) == LF_CR_LF + after
  {
  }

  lemma CrCrLfWaits(handle: Handler, frame: string, after: string)
    requires Plain(frame) && |after| <= 1 && Plain(after) && |frame| <= LIMIT - 4
    ensures Fed(handle, "", frame + (LF_CR_CR_LF + after)) == Outcome([], Some(frame + (LF_CR_LF + after)))
  {
    var raw, normal := LF_CR_CR_LF + after, LF_CR_LF + after;
    assert "" + (frame + raw) == frame + raw;
    PairAgain(raw, ['\r', '\r', '\n'] + after, ['\r', '\n'] + after, after);
    NormaliseAfterPlain(frame, raw);
    forall i ensures !EndAt(normal, i) {
      if 2 <= i && i + 1 < |normal| { assert normal[i + 1] in after; }
    }
    NoEndAnywhere(normal);
    NoEnd(frame, normal);
    DrainUnfinished(handle, frame + normal);
  }

  // ---- the hub's writer ----

  function FrameOf(json: string): string { DATA + ([' '] + json) }

  /** What the hub writes for one event. */
  function Written(json: string): string { FrameOf(json) + LF_LF }

  /** A serialised event: one line, not blank at the start, and well below the limit. */
  predicate OneLine(json: string) {
    0 < |json| <= 16376 && !Text.IsSpace(json[0]) && Plain(json)
  }

  function WrittenAll(jsons: seq<string>): string {
    if jsons == [] then "" else Written(jsons[0]) + WrittenAll(jsons[1..])
  }

  lemma {:induction false} LinesOfPlain(s: string)
    requires '\n' !in s
    ensures Lines(s) == [s]
  {
    if s != "" {
      LinesOfPlain(s[1..]);
      assert [s[0]] + s[1..] == s;
    }
  }

  /** A line holds a value after "data:" and spaces, or is no data line. */
  predicate HoldsValue(line: string, value: Option<string>) {
    match value
    case None => !("data:" <= line)
    case Some(v) =>
      && |v| + 5 <= |line| && "data:" <= line && line[|line| - |v|..] == v && (v == "" || !Text.IsSpace(v[0]))
      && forall i :: 5 <= i < |line| - |v| ==> Text.IsSpace(line[i])
  }

  function Values(values: seq<Option<string>>): seq<string> {
    if values == [] then [] else (if values[0].Some? then [values[0].value] else []) + Values(values[1..])
  }

  lemma {:induction false} TrimLeftIs(s: string, v: string)
    requires |v| <= |s| && s[|s| - |v|..] == v && (v == "" || !Text.IsSpace(v[0]))
    requires forall i :: 0 <= i < |s| - |v| ==> Text.IsSpace(s[i])
    ensures Text.TrimLeft(s) == v
  {
    if |s| > |v| { TrimLeftIs(s[1..], v); }
  }

  lemma {:induction false} DataLinesAre(lines: seq<string>, values: seq<Option<string>>)
    requires |lines| == |values| && forall i :: 0 <= i < |lines| ==> HoldsValue(lines[i], values[i])
    ensures DataLines(lines) == Values(values)
  {
    if lines != [] {
      DataLinesAre(lines[1..], values[1..]);
      if values[0].Some? { TrimLeftIs(lines[0][5..], values[0].value); }
    }
  }

  /** The text of a frame is the values of its data lines, one to a line, whatever other lines it has; a frame
      without text is passed over. */
  lemma FrameIsItsData(parse: Parser, lines: seq<string>, values: seq<Option<string>>)
    requires lines != [] && |lines| == |values|
    requires forall i :: 0 <= i < |lines| ==> '\n' !in lines[i] && HoldsValue(lines[i], values[i])
    ensures var text := JoinLines(Values(values));
            && (text == "" ==> Handle(parse, JoinLines(lines)) == Some([]))
            && (text != "" && parse(text).Some? ==> Handle(parse, JoinLines(lines)) == Some([parse(text).value]))
            && (text != "" && parse(text).None? ==> Handle(parse, JoinLines(lines)) == None)
  {
    LinesInvertJoin(lines);
    DataLinesAre(lines, values);
  }

  lemma DataLineOf(frame: string, rest: string)
    requires frame == DATA + rest
    ensures DataLines([frame]) == [Text.TrimLeft(rest)]
  {
    assert frame[5..] == rest;
    assert [frame][1..] == [];
  }

  lemma FrameOfIsPlain(json: string)
    requires OneLine(json)
    ensures Plain(FrameOf(json)) && |FrameOf(json)| <= LIMIT - 2
  {
  }

  lemma WrittenIsHandled(parse: Parser, json: string)
    requires OneLine(json) && parse(json).Some?
    ensures Handle(parse, FrameOf(json)) == Some([parse(json).value])
  {
    var frame := FrameOf(json);
    FrameOfIsPlain(json);
    LinesOfPlain(frame);
    DataLineOf(frame, [' '] + json);
    assert ([' '] + json)[1..] == json;
    assert Text.TrimLeft([' '] + json) == Text.TrimLeft(json) == json;
    assert JoinLines([json]) == json;
  }

  function FramesOf(jsons: seq<string>): seq<string> {
    if jsons == [] then [] else [FrameOf(jsons[0])] + FramesOf(jsons[1..])
  }

  lemma {:induction false} WrittenAllIsCut(jsons: seq<string>)
    requires forall i :: 0 <= i < |jsons| ==> OneLine(jsons[i])
    ensures Cut(WrittenAll(jsons)) == Pieces(FramesOf(jsons), "") && '\r' !in WrittenAll(jsons)
  {
    if jsons != [] {
      WrittenAllIsCut(jsons[1..]);
      FrameOfIsPlain(jsons[0]);
      PlainIsFrame(FrameOf(jsons[0]));
      CutFirst(FrameOf(jsons[0]), WrittenAll(jsons[1..]));
    }
  }

  lemma {:induction false} FramesOfDecode(parse: Parser, jsons: seq<string>, events: seq<Event>)
    requires |events| == |jsons|
    requires forall i :: 0 <= i < |jsons| ==> OneLine(jsons[i]) && parse(jsons[i]) == Some(events[i])
    ensures forall f :: f in FramesOf(jsons) ==> |f| <= LIMIT - 2
    ensures HandleAll(Handling(parse), FramesOf(jsons)) == Emitted(events, true)
  {
    if jsons != [] {
      FramesOfDecode(parse, jsons[1..], events[1..]);
      WrittenIsHandled(parse, jsons[0]);
      FrameOfIsPlain(jsons[0]);
      assert ([FrameOf(jsons[0])] + FramesOf(jsons[1..]))[1..] == FramesOf(jsons[1..]);
      assert events == [events[0]] + events[1..];
    }
  }

  /** Whatever the hub writes is decoded to exactly its events, however the network splits it. */
  lemma DecoderInvertsWriter(parse: Parser, jsons: seq<string>, events: seq<Event>, chunks: seq<string>)
    requires |events| == |jsons|
    requires forall i :: 0 <= i < |jsons| ==> OneLine(jsons[i]) && parse(jsons[i]) == Some(events[i])
    requires Concat(chunks) == WrittenAll(jsons)
    ensures FeedAll(Handling(parse), "", chunks) == Outcome(events, Some(""))
  {
    var s := WrittenAll(jsons);
    WrittenAllIsCut(jsons);
    FramesOfDecode(parse, jsons, events);
    NormaliseNoCr(s);
    assert "" + s == s;
    ShortFramesChunkInvisibly(Handling(parse), chunks);
  }

  // ---- the decoder ----

  class Decoder {
    var pending: string

    constructor ()
      ensures pending == ""
    {
      pending := "";
    }

    /** One call with a chunk; `ok` is false when it throws, and then the decoder is given up. */
    method Feed(parse: Parser, chunk: string) returns (events: seq<Event>, ok: bool)
      modifies this
      ensures Outcome(events, if ok then Some(pending) else None)
              == Fed(Handling(parse), old(pending), chunk)
    {
      pending := Normalise(pending + chunk);
      ghost var handle := Handling(parse);
      ghost var pieces := Cut(pending);
      events := [];
      while true
        invariant pieces.tail == Cut(pending).tail
        invariant HandleAll(handle, pieces.frames) == Then(Emitted(events, true), HandleAll(handle, Cut(pending).frames))
        decreases |pending|
      {
        var end := End(pending);
        if end == |pending| { break; }
        if end > LIMIT { return events, false; }
        var frame := pending[..end];
        ghost var rest := Cut(pending[end + 2..]).frames;
        assert ([frame] + rest)[1..] == rest;
        ThenIsAssociative(Emitted(events, true), HandleFrame(handle, frame), HandleAll(handle, rest));
        pending := pending[end + 2..];
        var handled := Handle(parse, frame);
        if handled.None? { return events, false; }
        events := events + handled.value;
      }
      ok := |pending| <= LIMIT;
    }
  }
}

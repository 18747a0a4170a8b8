/** Server-sent events: the frames the backend writes
    (backend/app/api/v1/endpoints/research.py) and the frontend loop that puts
    them back together (frontend/src/lib/api/client.ts, `streamResearch`).
    The format is the data-only subset of section 9.2 of the WHATWG HTML standard. */
module EventStream {
  import opened Sequences
  import opened Text
  import opened Options

  const DONE := "[DONE]"

  /** What JavaScript's `trim` removes. */
  predicate IsJsSpace(c: char) {
    || '\U{09}' <= c <= '\U{0D}' || c == ' ' || c == '\U{A0}' || c == '\U{1680}'
    || '\U{2000}' <= c <= '\U{200A}' || c == '\U{2028}' || c == '\U{2029}'
    || c == '\U{202F}' || c == '\U{205F}' || c == '\U{3000}' || c == '\U{FEFF}'
  }

  function Trim(s: string): string {
    StripBy(s, IsJsSpace)
  }

  // ------------------------------------------------------------------ frames

  /** Where the first blank line starts, or -1. */
  function FindBreak(s: string): (i: int)
    ensures i >= 0 ==> i + 2 <= |s| && s[i] == '\n' && s[i + 1] == '\n'
    ensures forall j :: 0 <= j < (if i >= 0 then i else |s| - 1) ==> !(s[j] == '\n' && s[j + 1] == '\n')
    ensures i >= -1
  {
    if |s| < 2 then -1
    else if s[0] == '\n' && s[1] == '\n' then 0
    else if FindBreak(s[1..]) < 0 then -1 else FindBreak(s[1..]) + 1
  }

  /** `buffer.split("\n\n")`. */
  function SplitFrames(s: string): (frames: seq<string>)
    ensures frames != []
    decreases |s|
  {
    if FindBreak(s) < 0 then [s] else [s[..FindBreak(s)]] + SplitFrames(s[FindBreak(s) + 2..])
  }

  /** The frames known to be complete, and what has to wait for more input. */
  function Complete(s: string): seq<string> {
    SplitFrames(s)[..|SplitFrames(s)| - 1]
  }

  function Remainder(s: string): string {
    SplitFrames(s)[|SplitFrames(s)| - 1]
  }

  lemma {:induction false} FindBreakPrefix(x: string, y: string)
    requires FindBreak(x) >= 0
    ensures FindBreak(x + y) == FindBreak(x)
  {
    if !(x[0] == '\n' && x[1] == '\n') {
      FindBreakPrefix(x[1..], y);
      assert (x + y)[1..] == x[1..] + y;
    }
  }

  lemma SplitUnfold(s: string)
    requires FindBreak(s) >= 0
    ensures Complete(s) == [s[..FindBreak(s)]] + Complete(s[FindBreak(s) + 2..])
    ensures Remainder(s) == Remainder(s[FindBreak(s) + 2..])
  {
  }

  lemma CutConcat<C>(x: seq<C>, y: seq<C>, i: nat)
    requires i + 2 <= |x|
    ensures (x + y)[..i] == x[..i] && (x + y)[i + 2..] == x[i + 2..] + y
  {
  }

  /** The first frame of `x + y` is that of `x`. */
  lemma FirstFrameStays(x: string, y: string) returns (frame: string, x': string)
    requires FindBreak(x) >= 0
    ensures |x'| < |x| && Complete(x) == [frame] + Complete(x') && Remainder(x) == Remainder(x')
    ensures Complete(x + y) == [frame] + Complete(x' + y) && Remainder(x + y) == Remainder(x' + y)
  {
    var i := FindBreak(x);
    frame, x' := x[..i], x[i + 2..];
    FindBreakPrefix(x, y);
    SplitUnfold(x);
    SplitUnfold(x + y);
    CutConcat(x, y, i);
  }

  /** Splitting `x + y` is: the complete frames of `x`, then splitting what `x`
      left over followed by `y`. */
  lemma {:induction false} SplitConcat(x: string, y: string)
    ensures Complete(x + y) == Complete(x) + Complete(Remainder(x) + y)
    ensures Remainder(x + y) == Remainder(Remainder(x) + y)
    decreases |x|
  {
    if FindBreak(x) < 0 {
      NoBreak(x);
      NoTail(Complete(x + y));
    } else {
      var frame, x' := FirstFrameStays(x, y);
      SplitConcat(x', y);
      ConsConcat(frame, Complete(x'), Complete(Remainder(x') + y));
    }
  }

  lemma NoBreak(x: string)
    requires FindBreak(x) < 0
    ensures Complete(x) == [] && Remainder(x) == x
  {
  }

  // ------------------------------------------------------------- one frame

  /** `frame.split("\n")`. */
  function Lines(s: string): (lines: seq<string>)
    ensures lines != []
  {
    if s == "" then [""]
    else if s[0] == '\n' then [""] + Lines(s[1..])
    else [[s[0]] + Lines(s[1..])[0]] + Lines(s[1..])[1..]
  }

  /** `lines.find((l) => l.startsWith("data:"))`. */
  function FindData(lines: seq<string>): (r: Option<string>)
    ensures r.Some? ==> "data:" <= r.value
  {
    if lines == [] then None
    else if "data:" <= lines[0] then Some(lines[0])
    else FindData(lines[1..])
  }

  /** The payload a frame delivers, if any: the end marker and empty payloads do not count. */
  function FramePayload(frame: string): Option<string> {
    match FindData(Lines(frame))
    case None => None
    case Some(line) =>
      var payload := Trim(line[5..]);
      if payload == "" || payload == DONE then None else Some(payload)
  }

  /** What one frame yields; a payload that does not parse is skipped. */
  function FrameEvent<E>(frame: string, parse: string -> Option<E>): Option<E> {
    match FramePayload(frame)
    case None => None
    case Some(payload) => parse(payload)
  }

  function Delivery<E>(parse: string -> Option<E>): string -> Option<E> {
    frame => FrameEvent(frame, parse)
  }

  /** The values delivered by a list of items, in order. */
  function Delivered<F, E>(items: seq<F>, deliver: F -> Option<E>): seq<E> {
    if items == [] then []
    else if deliver(items[0]).Some? then [deliver(items[0]).value] + Delivered(items[1..], deliver)
    else Delivered(items[1..], deliver)
  }

  function Events<E>(frames: seq<string>, parse: string -> Option<E>): seq<E> {
    Delivered(frames, Delivery(parse))
  }

  lemma {:induction false} DeliveredConcat<F, E>(a: seq<F>, b: seq<F>, deliver: F -> Option<E>)
    ensures Delivered(a + b, deliver) == Delivered(a, deliver) + Delivered(b, deliver)
  {
    if a == [] {
      assert a + b == b;
    } else {
      DeliveredConcat(a[1..], b, deliver);
      HeadOfConcat(a, b);
      if deliver(a[0]).Some? {
        ConsConcat(deliver(a[0]).value, Delivered(a[1..], deliver), Delivered(b, deliver));
      }
    }
  }

  lemma DeliveredOne<F, E>(items: seq<F>, j: nat, deliver: F -> Option<E>)
    requires j < |items|
    ensures Delivered(items[..j + 1], deliver)
         == Delivered(items[..j], deliver) + if deliver(items[j]).Some? then [deliver(items[j]).value] else []
  {
    assert items[..j + 1] == items[..j] + [items[j]];
    DeliveredConcat(items[..j], [items[j]], deliver);
  }

  // ------------------------------------------------------------ the two programs

  function Frame(payload: string): string {
    "data: " + payload + "\n\n"
  }

  lemma WireNext<E>(events: seq<E>, i: nat, dumps: E -> string)
    requires i < |events|
    ensures Wire(events[i..], dumps) == Frame(dumps(events[i])) + Wire(events[i + 1..], dumps)
  {
    assert events[i..][1..] == events[i + 1..];
  }

  lemma WriteOne<C>(writes: seq<seq<C>>, frame: seq<C>, rest: seq<C>)
    ensures Flatten(writes + [frame]) + rest == Flatten(writes) + (frame + rest)
  {
    FlattenSnoc(writes, frame);
    Assoc(Flatten(writes), frame, rest);
  }

  /** The backend generator: one frame per event, then the end marker. */
  method WriteEvents<E>(events: seq<E>, dumps: E -> string) returns (writes: seq<string>)
    ensures Flatten(writes) == Wire(events, dumps)
  {
    writes := [];
    for i := 0 to |events|
      invariant Flatten(writes) + Wire(events[i..], dumps) == Wire(events, dumps)
    {
      WireNext(events, i, dumps);
      WriteOne(writes, Frame(dumps(events[i])), Wire(events[i + 1..], dumps));
      writes := writes + [Frame(dumps(events[i]))];
    }
    assert events[|events|..] == [];
    FlattenSnoc(writes, Frame(DONE));
    writes := writes + [Frame(DONE)];
  }

  /** The whole text of a stream. */
  function Wire<E>(events: seq<E>, dumps: E -> string): string {
    if events == [] then Frame(DONE) else Frame(dumps(events[0])) + Wire(events[1..], dumps)
  }

  /** The inner loop of the frontend, over the complete frames of one read. */
  method YieldFrames<E>(frames: seq<string>, parse: string -> Option<E>) returns (events: seq<E>)
    ensures events == Events(frames, parse)
  {
    events := [];
    for j := 0 to |frames|
      invariant events == Delivered(frames[..j], Delivery(parse))
    {
      DeliveredOne(frames, j, Delivery(parse));
      var data := FindData(Lines(frames[j]));
      if data.None? { continue; }
      var payload := Trim(data.value[5..]);
      if payload == "" || payload == DONE { continue; }
      var parsed := parse(payload);
      if parsed.Some? { events := events + [parsed.value]; }
    }
    assert frames[..|frames|] == frames;
  }

  /** One more read extends what has been yielded and replaces what is held. */
  lemma OneMoreRead<E>(before: string, piece: string, parse: string -> Option<E>)
    ensures Events(Complete(before + piece), parse)
         == Events(Complete(before), parse) + Events(Complete(Remainder(before) + piece), parse)
    ensures Remainder(before + piece) == Remainder(Remainder(before) + piece)
  {
    SplitConcat(before, piece);
    DeliveredConcat(Complete(before), Complete(Remainder(before) + piece), Delivery(parse));
  }

  lemma FlattenTake(pieces: seq<string>, i: nat)
    requires i < |pieces|
    ensures Flatten(pieces[..i + 1]) == Flatten(pieces[..i]) + pieces[i]
  {
    assert pieces[..i + 1] == pieces[..i] + [pieces[i]];
    FlattenSnoc(pieces[..i], pieces[i]);
  }

  /** The frontend loop. What it yields, and what it still holds, depend only on
      the concatenation of the reads, never on where the reads were cut. */
  method StreamResearch<E>(pieces: seq<string>, parse: string -> Option<E>) returns (events: seq<E>, buffer: string)
    ensures events == Events(Complete(Flatten(pieces)), parse)
    ensures buffer == Remainder(Flatten(pieces))
  {
    events, buffer := [], "";
    for i := 0 to |pieces|
      invariant events == Events(Complete(Flatten(pieces[..i])), parse)
      invariant buffer == Remainder(Flatten(pieces[..i]))
    {
      FlattenTake(pieces, i);
      OneMoreRead(Flatten(pieces[..i]), pieces[i], parse);
      buffer := buffer + pieces[i];
      var frames := SplitFrames(buffer);
      var complete := frames[..|frames| - 1];
      buffer := frames[|frames| - 1];
      var yielded := YieldFrames(complete, parse);
      events := events + yielded;
    }
    assert pieces[..|pieces|] == pieces;
  }

  // ----------------------------------------------------------------- round trip

  /** A payload the framing carries unchanged. JSON text of an object is one. */
  predicate Transmittable(p: string) {
    '\n' !in p && p != "" && p != DONE && TrimmedBy(p, IsJsSpace)
  }

  lemma {:induction false} OneLine(s: string)
    requires '\n' !in s
    ensures Lines(s) == [s]
  {
    if s != "" {
      OneLine(s[1..]);
      assert [s[0]] + s[1..] == s;
    }
  }

  lemma TrimLeadingSpace(p: string)
    ensures Trim(" " + p) == Trim(p)
  {
    assert (" " + p)[1..] == p;
  }

  lemma DataLine(frame: string)
    requires '\n' !in frame && "data:" <= frame
    ensures FindData(Lines(frame)) == Some(frame)
  {
    OneLine(frame);
  }

  lemma FrameOf(p: string)
    requires '\n' !in p
    ensures FramePayload("data: " + p) == if Trim(p) == "" || Trim(p) == DONE then None else Some(Trim(p))
  {
    var frame := "data: " + p;
    assert frame == "data:" + (" " + p);
    DataLine(frame);
    assert frame[5..] == " " + p;
    TrimLeadingSpace(p);
  }

  /** A newline-free payload comes back unchanged exactly when it is transmittable. */
  lemma FrameRoundTrip(p: string)
    requires '\n' !in p
    ensures FramePayload("data: " + p) == Some(p) <==> Transmittable(p)
  {
    FrameOf(p);
    StripByTrims(p, IsJsSpace);
  }

  lemma {:induction false} NoBreakBefore(a: string, rest: string)
    requires '\n' !in a
    ensures FindBreak(a + "\n\n" + rest) == |a|
  {
    if a == "" {
      assert a + "\n\n" + rest == "\n\n" + rest;
    } else {
      NoBreakBefore(a[1..], rest);
      assert (a + "\n\n" + rest)[1..] == a[1..] + "\n\n" + rest;
    }
  }

  lemma SplitFirst(p: string, rest: string)
    requires '\n' !in p
    ensures Complete("data: " + p + "\n\n" + rest) == ["data: " + p] + Complete(rest)
    ensures Remainder("data: " + p + "\n\n" + rest) == Remainder(rest)
  {
    var a := "data: " + p;
    NoBreakBefore(a, rest);
    SplitUnfold(a + "\n\n" + rest);
    assert (a + "\n\n" + rest)[..|a|] == a && (a + "\n\n" + rest)[|a| + 2..] == rest;
  }

  /** What is written for an event is read back as that event. */
  ghost predicate Faithful<E>(dumps: E -> string, parse: string -> Option<E>, e: E) {
    Transmittable(dumps(e)) && parse(dumps(e)) == Some(e)
  }

  lemma FirstEventDelivered<E>(e: E, dumps: E -> string, parse: string -> Option<E>, rest: string)
    requires Faithful(dumps, parse, e)
    ensures Events(Complete("data: " + dumps(e) + "\n\n" + rest), parse) == [e] + Events(Complete(rest), parse)
    ensures Remainder("data: " + dumps(e) + "\n\n" + rest) == Remainder(rest)
  {
    var p := dumps(e);
    SplitFirst(p, rest);
    FrameRoundTrip(p);
    DeliveredConcat(["data: " + p], Complete(rest), Delivery(parse));
    assert Delivery(parse)("data: " + p) == Some(e);
    assert Delivered(["data: " + p], Delivery(parse)) == [e];
  }

  lemma MarkerIsSilent(p: string)
    requires '\n' !in p && TrimmedBy(p, IsJsSpace) && p == DONE
    ensures FramePayload("data: " + p) == None
  {
    FrameOf(p);
    StripByTrims(p, IsJsSpace);
  }

  lemma MarkerShape()
    ensures '\n' !in DONE && TrimmedBy(DONE, IsJsSpace)
  {
  }

  lemma EndMarkerSplits()
    ensures Complete("data: " + DONE + "\n\n") == ["data: " + DONE]
    ensures Remainder("data: " + DONE + "\n\n") == ""
  {
    assert '\n' !in DONE;
    SplitFirst(DONE, "");
    assert "data: " + DONE + "\n\n" + "" == "data: " + DONE + "\n\n";
    assert SplitFrames("") == [""];
  }

  lemma SilentFrame<E>(frame: string, parse: string -> Option<E>)
    requires FramePayload(frame) == None
    ensures Events([frame], parse) == []
  {
    assert Delivery(parse)(frame) == None;
    assert Delivered([frame][1..], Delivery(parse)) == [];
  }

  /** The end marker delivers nothing and leaves nothing. */
  lemma EndDelivered<E>(parse: string -> Option<E>)
    ensures Events(Complete(Frame(DONE)), parse) == [] && Remainder(Frame(DONE)) == ""
  {
    EndMarkerSplits();
    MarkerShape();
    MarkerIsSilent(DONE);
    SilentFrame("data: " + DONE, parse);
  }

  lemma WireFirst<E>(events: seq<E>, dumps: E -> string, parse: string -> Option<E>)
    requires events != [] && Faithful(dumps, parse, events[0])
    ensures Events(Complete(Wire(events, dumps)), parse) ==
              [events[0]] + Events(Complete(Wire(events[1..], dumps)), parse)
    ensures Remainder(Wire(events, dumps)) == Remainder(Wire(events[1..], dumps))
  {
    FirstEventDelivered(events[0], dumps, parse, Wire(events[1..], dumps));
  }

  lemma {:induction false} WireRoundTrip<E>(events: seq<E>, dumps: E -> string, parse: string -> Option<E>)
    requires forall i :: 0 <= i < |events| ==> Faithful(dumps, parse, events[i])
    ensures Events(Complete(Wire(events, dumps)), parse) == events
    ensures Remainder(Wire(events, dumps)) == ""
  {
    if events == [] {
      EndDelivered(parse);
    } else {
      WireRoundTrip(events[1..], dumps, parse);
      WireFirst(events, dumps, parse);
      assert [events[0]] + events[1..] == events;
    }
  }

  /** Round trip under arbitrary read boundaries: however the stream is cut into
      reads, the frontend yields exactly the events written and holds nothing back. */
  lemma StreamRoundTrip<E>(events: seq<E>, dumps: E -> string, parse: string -> Option<E>, pieces: seq<string>)
    requires forall i :: 0 <= i < |events| ==> Faithful(dumps, parse, events[i])
    requires Flatten(pieces) == Wire(events, dumps)
    ensures Events(Complete(Flatten(pieces)), parse) == events && Remainder(Flatten(pieces)) == ""
  {
    WireRoundTrip(events, dumps, parse);
  }

  /** A connection cut anywhere loses only a suffix: what was yielded is a prefix
      of the events written, each whole and in order. */
  lemma CutStreamYieldsPrefix<E>(events: seq<E>, dumps: E -> string, parse: string -> Option<E>, received: string,
                                 lost: string)
    requires forall i :: 0 <= i < |events| ==> Faithful(dumps, parse, events[i])
    requires received + lost == Wire(events, dumps)
    ensures Events(Complete(received), parse) <= events
  {
    WireRoundTrip(events, dumps, parse);
    OneMoreRead(received, lost, parse);
  }
}

/**
  The wire format of a stream: the printer of src/streaming/emitter.py and the line parser of
  src/frontend/app.py, with the line splitting that feeds the parser.
  The format is that of sections 9.2.5 and 9.2.6 of the WHATWG HTML Living Standard.
*/
module SseCodec {
  import opened Prelude
  import opened Decimals

  datatype Event = Event(id: nat, kind: string, data: string)

  /** A parsed event: field names to values. */
  type Fields = map<string, string>

  // ---- printing ------------------------------------------------------------------------------

  function Format(e: Event): string {
    "id: " + Decimal(e.id) + "\n" + ("event: " + e.kind + "\n" + ("data: " + e.data + "\n" + "\n"))
  }

  const KEEP_ALIVE := ": keep-alive\n\n"

  /** What a connection carries: events, with keep-alive comments anywhere between them. */
  datatype Chunk = Block(e: Event) | KeepAlive

  function Print(c: Chunk): string {
    if c.Block? then Format(c.e) else KEEP_ALIVE
  }

  function PrintAll(cs: seq<Chunk>): string {
    if cs == [] then "" else Print(cs[0]) + PrintAll(cs[1..])
  }

  function Events(cs: seq<Chunk>): seq<Event> {
    if cs == [] then [] else (if cs[0].Block? then [cs[0].e] else []) + Events(cs[1..])
  }

  function AsFields(e: Event): Fields {
    map["id" := Decimal(e.id), "event" := e.kind, "data" := e.data]
  }

  function AllFields(es: seq<Event>): (fs: seq<Fields>)
    ensures |fs| == |es| && forall k :: 0 <= k < |es| ==> fs[k] == AsFields(es[k])
  {
    if es == [] then [] else [AsFields(es[0])] + AllFields(es[1..])
  }

  // ---- splitting into lines ------------------------------------------------------------------

  predicate IsBreak(c: char) {
    c == '\n' || c == '\r'
  }

  predicate OneLine(s: string) {
    forall k :: 0 <= k < |s| ==> !IsBreak(s[k])
  }

  /** The position of the first line break, or the end of the text. */
  function LineEnd(text: string): (k: nat)
    ensures k <= |text| && OneLine(text[..k]) && (k < |text| ==> IsBreak(text[k]))
  {
    if text == "" || IsBreak(text[0]) then 0 else 1 + LineEnd(text[1..])
  }

  /** splitlines(): a break is LF, CR or CR LF, and ends a line; a final empty piece is no line. */
  function Lines(text: string): (lines: seq<string>)
    ensures forall k :: 0 <= k < |lines| ==> OneLine(lines[k])
    decreases |text|
  {
    if text == "" then []
    else
      var k := LineEnd(text);
      if k == |text| then [text]
      else if text[k] == '\r' && k + 1 < |text| && text[k + 1] == '\n' then [text[..k]] + Lines(text[k + 2..])
      else [text[..k]] + Lines(text[k + 1..])
  }

  lemma {:induction false} LineEndAt(line: string, rest: string)
    requires OneLine(line) && (rest == "" || IsBreak(rest[0]))
    ensures LineEnd(line + rest) == |line|
  {
    if line == "" {
      assert line + rest == rest;
    } else {
      assert (line + rest)[1..] == line[1..] + rest;
      LineEndAt(line[1..], rest);
    }
  }

  lemma LinesCons(line: string, rest: string)
    requires OneLine(line)
    ensures Lines(line + "\n" + rest) == [line] + Lines(rest)
  {
    var text := line + "\n" + rest;
    assert text == line + ("\n" + rest);
    LineEndAt(line, "\n" + rest);
    assert text[|line|] == '\n' && text[..|line|] == line && text[|line| + 1..] == rest;
  }

  lemma LinesOfOne(line: string)
    requires OneLine(line) && line != ""
    ensures Lines(line) == [line]
  {
    LineEndAt(line, "");
    assert line + "" == line;
  }

  // ---- parsing -------------------------------------------------------------------------------

  function StripLeft(s: string): string {
    if s != "" && IsSpace(s[0]) then StripLeft(s[1..]) else s
  }

  function StripRight(s: string): string {
    if s != "" && IsSpace(s[|s| - 1]) then StripRight(s[..|s| - 1]) else s
  }

  /** lstrip(" ") */
  function DropBlanks(s: string): (r: string)
    ensures r == "" || r[0] != ' '
    ensures OneLine(s) ==> OneLine(r)
  {
    if s != "" && s[0] == ' ' then DropBlanks(s[1..]) else s
  }

  /** partition(":"): the position of the first colon, or the length when there is none. */
  function Colon(line: string): (k: nat)
    ensures k <= |line| && (k < |line| ==> line[k] == ':') && forall j :: 0 <= j < k ==> line[j] != ':'
  {
    if line == "" || line[0] == ':' then 0 else 1 + Colon(line[1..])
  }

  /** One turn of the parser loop: the event it yields, if any, and the event being built. */
  function ParseLine(line: string, current: Fields): (Option<Fields>, Fields) {
    if line != "" && line[0] == ':' then (None, current)
    else if line == "" then (if current == map[] then None else Some(current), map[])
    else
      var k := Colon(line);
      if k == |line| then (None, current)
      else (None, current[StripRight(StripLeft(line[..k])) := DropBlanks(line[k + 1..])])
  }

  /** The events yielded by a list of lines, starting from a partly built event. */
  function Parse(lines: seq<string>, current: Fields): seq<Fields> {
    if lines == [] then []
    else
      var (yielded, next) := ParseLine(lines[0], current);
      (if yielded.Some? then [yielded.value] else []) + Parse(lines[1..], next)
  }

  function Receive(text: string): seq<Fields> {
    Parse(Lines(text), map[])
  }

  /** The client's loop over the lines of a response. */
  method SseEvents(text: string) returns (events: seq<Fields>)
    ensures events == Receive(text)
  {
    var lines := Lines(text);
    events := [];
    var current: Fields := map[];
    for i := 0 to |lines|
      invariant events + Parse(lines[i..], current) == Receive(text)
    {
      var line := lines[i];
      assert lines[i..][0] == line && lines[i..][1..] == lines[i + 1..];
      if line != "" && line[0] == ':' {
        continue;
      }
      if line == "" {
        if current != map[] {
          events := events + [current];
        }
        current := map[];
        continue;
      }
      var k := Colon(line);
      if k < |line| {
        var field := StripRight(StripLeft(line[..k]));
        var value := DropBlanks(line[k + 1..]);
        current := current[field := value];
      }
    }
  }

  // ---- round trip ----------------------------------------------------------------------------

  /** What the line format can carry in a field. */
  predicate Carries(s: string) {
    OneLine(s) && (s == "" || s[0] != ' ')
  }

  predicate WireSafe(e: Event) {
    Carries(e.kind) && Carries(e.data)
  }

  /** Payloads are JSON objects printed on one line. */
  predicate JsonLine(data: string) {
    data != "" && data[0] == '{' && OneLine(data)
  }

  lemma ColonAfter(name: string, value: string)
    requires forall k :: 0 <= k < |name| ==> name[k] != ':'
    ensures Colon(name + ":" + value) == |name|
  {
    var line := name + ":" + value;
    assert line[|name|] == ':';
    assert forall k :: 0 <= k < |name| ==> line[k] == name[k];
  }

  /** A well-formed field line sets its field. */
  lemma FieldLine(name: string, value: string, current: Fields)
    requires name in {"id", "event", "data"} && Carries(value)
    ensures ParseLine(name + ": " + value, current) == (None, current[name := value])
    ensures OneLine(name + ": " + value)
  {
    var line := name + ": " + value;
    assert line == name + ":" + (" " + value);
    ColonAfter(name, " " + value);
    assert line[..|name|] == name && line[|name| + 1..] == " " + value;
    assert (" " + value)[1..] == value;
    assert DropBlanks(" " + value) == DropBlanks(value) == value;
    assert StripRight(StripLeft(name)) == name;
  }

  function IdLine(e: Event): string {
    "id" + ": " + Decimal(e.id)
  }

  function KindLine(e: Event): string {
    "event" + ": " + e.kind
  }

  function DataLine(e: Event): string {
    "data" + ": " + e.data
  }

  lemma FormatLines(e: Event, rest: string)
    requires WireSafe(e)
    ensures Lines(Format(e) + rest) == [IdLine(e)] + ([KindLine(e)] + ([DataLine(e)] + ([""] + Lines(rest))))
  {
    var t4 := "" + "\n" + rest;
    var t3 := DataLine(e) + "\n" + t4;
    var t2 := KindLine(e) + "\n" + t3;
    assert Format(e) + rest == IdLine(e) + "\n" + t2;
    assert OneLine(IdLine(e)) && OneLine(KindLine(e)) && OneLine(DataLine(e));
    LinesCons(IdLine(e), t2);
    LinesCons(KindLine(e), t3);
    LinesCons(DataLine(e), t4);
    LinesCons("", rest);
  }

  /** A field line is consumed without yielding. */
  lemma ParseField(name: string, value: string, lines: seq<string>, current: Fields)
    requires name in {"id", "event", "data"} && Carries(value)
    ensures Parse([name + ": " + value] + lines, current) == Parse(lines, current[name := value])
  {
    FieldLine(name, value, current);
    assert ([name + ": " + value] + lines)[1..] == lines;
  }

  /** A blank line yields what was built. */
  lemma ParseBlank(lines: seq<string>, current: Fields)
    requires current != map[]
    ensures Parse([""] + lines, current) == [current] + Parse(lines, map[])
  {
    assert ([""] + lines)[1..] == lines;
  }

  lemma BuiltUp(e: Event)
    ensures AsFields(e) == map["id" := Decimal(e.id)]["event" := e.kind]["data" := e.data] && AsFields(e) != map[]
  {
    assert "id" in AsFields(e);
  }

  /** The client reads back one printed event and goes on with the rest of the stream. */
  lemma ReceiveBlock(e: Event, rest: string)
    requires WireSafe(e)
    ensures Receive(Format(e) + rest) == [AsFields(e)] + Receive(rest)
  {
    var blank := [""] + Lines(rest);
    var data := [DataLine(e)] + blank;
    var kind := [KindLine(e)] + data;
    calc {
      Receive(Format(e) + rest);
      { FormatLines(e, rest); }
      Parse([IdLine(e)] + kind, map[]);
      { ParseField("id", Decimal(e.id), kind, map[]); }
      Parse(kind, map["id" := Decimal(e.id)]);
      { ParseField("event", e.kind, data, map["id" := Decimal(e.id)]); }
      Parse(data, map["id" := Decimal(e.id)]["event" := e.kind]);
      { ParseField("data", e.data, blank, map["id" := Decimal(e.id)]["event" := e.kind]); BuiltUp(e); }
      Parse(blank, AsFields(e));
      { BuiltUp(e); ParseBlank(Lines(rest), AsFields(e)); }
      [AsFields(e)] + Receive(rest);
    }
  }

  lemma ReceiveKeepAlive(rest: string)
    ensures Receive(KEEP_ALIVE + rest) == Receive(rest)
  {
    var t := "" + "\n" + rest;
    assert KEEP_ALIVE + rest == ": keep-alive" + "\n" + t;
    LinesCons(": keep-alive", t);
    LinesCons("", rest);
    var lines := Lines(KEEP_ALIVE + rest);
    assert lines == [": keep-alive", ""] + Lines(rest);
    assert lines[1..][1..] == Lines(rest);
    assert Parse(lines[1..], map[]) == Parse(Lines(rest), map[]);
  }

  lemma {:induction false} SafeRoundTrip(cs: seq<Chunk>)
    requires forall k :: 0 <= k < |cs| && cs[k].Block? ==> WireSafe(cs[k].e)
    ensures Receive(PrintAll(cs)) == AllFields(Events(cs))
  {
    if cs != [] {
      SafeRoundTrip(cs[1..]);
      if cs[0].Block? {
        ReceiveBlock(cs[0].e, PrintAll(cs[1..]));
        assert Events(cs)[1..] == Events(cs[1..]);
      } else {
        ReceiveKeepAlive(PrintAll(cs[1..]));
      }
    }
  }

  /** Whatever the lines are, a parsed value is one line and has no leading blank. */
  lemma {:induction false} ParsedValuesAreClean(lines: seq<string>, current: Fields)
    requires forall k :: 0 <= k < |lines| ==> OneLine(lines[k])
    requires forall f :: f in current ==> Carries(current[f])
    ensures forall k, f :: 0 <= k < |Parse(lines, current)| && f in Parse(lines, current)[k]
              ==> Carries(Parse(lines, current)[k][f])
  {
    if lines != [] {
      var (yielded, next) := ParseLine(lines[0], current);
      ParsedValuesAreClean(lines[1..], next);
    }
  }

  lemma {:induction false} EventAt(cs: seq<Chunk>, k: nat) returns (j: nat)
    requires k < |cs| && cs[k].Block?
    ensures j < |Events(cs)| && Events(cs)[j] == cs[k].e
  {
    if k == 0 {
      j := 0;
    } else {
      j := EventAt(cs[1..], k - 1);
      if cs[0].Block? {
        j := j + 1;
      }
    }
  }

  /**
    Round trip, with keep-alives anywhere: the client reads back exactly the events that were
    printed, in order and with their ids, if and only if no field contains a line break or starts
    with a blank.
  */
  lemma {:induction false} RoundTripIff(cs: seq<Chunk>)
    ensures Receive(PrintAll(cs)) == AllFields(Events(cs))
       <==> forall k :: 0 <= k < |cs| && cs[k].Block? ==> WireSafe(cs[k].e)
  {
    if forall k :: 0 <= k < |cs| && cs[k].Block? ==> WireSafe(cs[k].e) {
      SafeRoundTrip(cs);
    } else {
      var k :| 0 <= k < |cs| && cs[k].Block? && !WireSafe(cs[k].e);
      var j := EventAt(cs, k);
      ParsedValuesAreClean(Lines(PrintAll(cs)), map[]);
      var fs := AllFields(Events(cs))[j];
      assert "event" in fs && "data" in fs && !(Carries(fs["event"]) && Carries(fs["data"]));
    }
  }

  /** The id the client reads is the id that was printed. */
  lemma IdRoundTrip(e: Event)
    ensures ParseNat(AsFields(e)["id"]) == Some(e.id)
  {
    ParseOfDecimal(e.id);
  }

  // ---- a connection cut anywhere -------------------------------------------------------------

  lemma PrefixOfLine(line: string, rest: string, p: string)
    requires OneLine(line) && line != "" && p <= line + "\n" + rest
    ensures p <= line ==> Lines(p) == (if p == "" then [] else [p])
    ensures !(p <= line) ==> exists p': string :: p == line + "\n" + p' && p' <= rest && Lines(p) == [line] + Lines(p')
  {
    var text := line + "\n" + rest;
    if p <= line {
      assert forall k :: 0 <= k < |p| ==> p[k] == line[k];
      if p != "" {
        LinesOfOne(p);
      }
    } else {
      assert |p| > |line|;
      var p' := p[|line| + 1..];
      assert p == text[..|p|];
      assert p == line + "\n" + p';
      assert p' == rest[..|p'|];
      LinesCons(line, p');
    }
  }

  /** Lines without a blank one yield nothing. */
  lemma {:induction false} NoBlankNoEvent(lines: seq<string>, current: Fields)
    requires "" !in lines
    ensures Parse(lines, current) == []
  {
    if lines != [] {
      assert lines[0] != "";
      NoBlankNoEvent(lines[1..], ParseLine(lines[0], current).1);
    }
  }

  /** Non-empty lines followed by a blank one. */
  function Joined(lines: seq<string>): string {
    if lines == [] then "\n" else lines[0] + "\n" + Joined(lines[1..])
  }

  /** Less than the whole of it holds no blank line. */
  lemma {:induction false} PartOfJoined(lines: seq<string>, p: string)
    requires forall k :: 0 <= k < |lines| ==> lines[k] != "" && OneLine(lines[k])
    requires p <= Joined(lines) && p != Joined(lines)
    ensures "" !in Lines(p)
  {
    if lines == [] {
      assert p == "";
    } else {
      PrefixOfLine(lines[0], Joined(lines[1..]), p);
      if !(p <= lines[0]) {
        var p': string :| p == lines[0] + "\n" + p' && p' <= Joined(lines[1..]) && Lines(p) == [lines[0]] + Lines(p');
        PartOfJoined(lines[1..], p');
      }
    }
  }

  lemma PartOfBlock(c: Chunk, p: string)
    requires (c.Block? ==> WireSafe(c.e)) && p <= Print(c) && p != Print(c)
    ensures "" !in Lines(p)
  {
    if c.KeepAlive? {
      assert [": keep-alive"][1..] == [];
      assert Joined([": keep-alive"]) == KEEP_ALIVE;
      PartOfJoined([": keep-alive"], p);
    } else {
      var e := c.e;
      var lines := [IdLine(e), KindLine(e), DataLine(e)];
      assert OneLine(IdLine(e)) && OneLine(KindLine(e)) && OneLine(DataLine(e));
      JoinedBlock(e);
      PartOfJoined(lines, p);
    }
  }

  lemma JoinedBlock(e: Event)
    ensures Joined([IdLine(e), KindLine(e), DataLine(e)]) == Format(e)
  {
    var lines := [IdLine(e), KindLine(e), DataLine(e)];
    assert lines[1..][1..][1..] == [];
    assert Joined(lines[1..][1..]) == DataLine(e) + "\n" + "\n";
    assert Joined(lines[1..]) == KindLine(e) + "\n" + (DataLine(e) + "\n" + "\n");
  }

  /**
    A connection that breaks after any number of characters delivers a prefix of the events: never
    half an event, never one out of order.
  */
  lemma {:induction false} CutDeliversAPrefix(cs: seq<Chunk>, p: string)
    requires forall k :: 0 <= k < |cs| && cs[k].Block? ==> WireSafe(cs[k].e)
    requires p <= PrintAll(cs)
    ensures Receive(p) <= AllFields(Events(cs))
  {
    if cs != [] {
      var first, rest := Print(cs[0]), PrintAll(cs[1..]);
      if |p| < |first| {
        assert p == (first + rest)[..|p|] == first[..|p|];
        PartOfBlock(cs[0], p);
        NoBlankNoEvent(Lines(p), map[]);
      } else {
        var p' := p[|first|..];
        assert p == (first + rest)[..|p|];
        assert p == first + p' && p' == rest[..|p'|];
        CutDeliversAPrefix(cs[1..], p');
        if cs[0].Block? {
          ReceiveBlock(cs[0].e, p');
          assert Events(cs)[1..] == Events(cs[1..]);
        } else {
          ReceiveKeepAlive(p');
        }
      }
    }
  }
}

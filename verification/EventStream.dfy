/**
 Server-sent events: the printer `sendEvent` (internal/transport/sse/handler.go:235-244) and the
 reader `readEvents` (internal/upstream/client.go:245-283), for the event-stream format of section
 9.2.6 of the WHATWG HTML Living Standard.
 */
module EventStream {
  import opened Text

  datatype Event = Event(name: string, data: string)

  // ---------------------------------------------------------------- white space

  /** `unicode.IsSpace` */
  predicate IsSpace(c: char) {
    || '\t' <= c <= '\r' || c == ' ' || c == '\U{85}' || c == '\U{a0}' || c == '\U{1680}'
    || '\U{2000}' <= c <= '\U{200a}' || c == '\U{2028}' || c == '\U{2029}' || c == '\U{202f}'
    || c == '\U{205f}' || c == '\U{3000}'
  }

  function TrimLeft(s: string): string {
    if s != "" && IsSpace(s[0]) then TrimLeft(s[1..]) else s
  }

  function TrimRight(s: string): string {
    if s != "" && IsSpace(s[|s| - 1]) then TrimRight(s[..|s| - 1]) else s
  }

  function TrimSpace(s: string): string {
    TrimRight(TrimLeft(s))
  }

  predicate IsTrimmed(s: string) {
    s != "" ==> !IsSpace(s[0]) && !IsSpace(s[|s| - 1])
  }

  /** A field that fits on a line and loses nothing when the line is trimmed. */
  predicate IsClean(s: string) {
    '\n' !in s && IsTrimmed(s)
  }

  lemma {:induction false} TrimRightShape(s: string)
    ensures TrimRight(s) == "" || !IsSpace(TrimRight(s)[|TrimRight(s)| - 1])
    ensures |TrimRight(s)| <= |s| && TrimRight(s) == s[..|TrimRight(s)|]
  {
    if s != "" && IsSpace(s[|s| - 1]) {
      TrimRightShape(s[..|s| - 1]);
    }
  }

  lemma {:induction false} TrimLeftShape(s: string)
    ensures TrimLeft(s) == "" || !IsSpace(TrimLeft(s)[0])
    ensures |TrimLeft(s)| <= |s| && TrimLeft(s) == s[|s| - |TrimLeft(s)|..]
  {
    if s != "" && IsSpace(s[0]) {
      TrimLeftShape(s[1..]);
    }
  }

  lemma {:induction false} PartOfLine(s: string, i: nat, j: nat)
    requires '\n' !in s && i <= j <= |s|
    ensures '\n' !in s[i..j]
  {
  }

  lemma {:induction false} TrimRightStart(s: string)
    requires s != "" && !IsSpace(s[0])
    ensures TrimRight(s) != "" && TrimRight(s)[0] == s[0]
  {
    if IsSpace(s[|s| - 1]) { TrimRightStart(s[..|s| - 1]); }
  }

  lemma {:induction false} TrimmedIsClean(s: string)
    requires '\n' !in s
    ensures IsClean(TrimSpace(s))
  {
    var left := TrimLeft(s);
    TrimLeftShape(s);
    PartOfLine(s, |s| - |left|, |s|);
    TrimRightShape(left);
    PartOfLine(left, 0, |TrimRight(left)|);
    if left != "" { TrimRightStart(left); }
  }

  // ---------------------------------------------------------------- printer

  function PrintEvent(e: Event): string {
    (if e.name != "" then "event: " + e.name + "\n" else "") +
    (if e.data != "" then "data: " + e.data + "\n" else "") +
    "\n"
  }

  function PrintEvents(es: seq<Event>): string {
    if es == [] then "" else PrintEvent(es[0]) + PrintEvents(es[1..])
  }

  method SendEvent(written: string, name: string, data: string) returns (w: string)
    ensures w == written + PrintEvent(Event(name, data))
  {
    w := written;
    if name != "" {
      w := w + "event: " + name + "\n";
    }
    if data != "" {
      w := w + "data: " + data + "\n";
    }
    w := w + "\n";
  }

  // ---------------------------------------------------------------- reader

  function FindNewline(s: string): (at: Option<nat>)
    ensures at.Some? ==> at.value < |s| && s[at.value] == '\n' && '\n' !in s[..at.value]
    ensures at.None? ==> '\n' !in s
  {
    if s == "" then None
    else if s[0] == '\n' then Some(0)
    else
      var later := FindNewline(s[1..]);
      if later.None? then None
      else
        assert s[..later.value + 1] == [s[0]] + s[1..][..later.value];
        Some(later.value + 1)
  }

  /** The fields collected so far, after one trimmed line. */
  function TakeLine(line: string, partial: Event): Event {
    if HasPrefix(line, "event:") then partial.(name := TrimSpace(line[6..]))
    else if HasPrefix(line, "data:") then partial.(data := TrimSpace(line[5..]))
    else partial
  }

  /** The events dispatched while reading `s`; an unterminated last line ends the stream. */
  function ReadFrom(s: string, partial: Event): seq<Event>
    decreases |s|
  {
    var end := FindNewline(s);
    if end.None? then []
    else
      var line, rest := TrimSpace(s[..end.value]), s[end.value + 1..];
      if line != "" then ReadFrom(rest, TakeLine(line, partial))
      else if partial == Event("", "") then ReadFrom(rest, partial)
      else [partial] + ReadFrom(rest, Event("", ""))
  }

  function Read(s: string): seq<Event> {
    ReadFrom(s, Event("", ""))
  }

  method ReadEvents(body: string) returns (dispatched: seq<Event>)
    ensures dispatched == Read(body)
  {
    var event, data := "", "";
    var s := body;
    dispatched := [];
    while true
      invariant dispatched + ReadFrom(s, Event(event, data)) == Read(body)
      decreases |s|
    {
      var end := FindNewline(s);
      if end.None? {
        assert dispatched + [] == dispatched;
        return;
      }
      var line := TrimSpace(s[..end.value]);
      ghost var before := ReadFrom(s, Event(event, data));
      s := s[end.value + 1..];
      if line == "" {
        if event != "" || data != "" {
          assert before == [Event(event, data)] + ReadFrom(s, Event("", ""));
          dispatched := dispatched + [Event(event, data)];
          event, data := "", "";
        }
        continue;
      }
      if HasPrefix(line, "event:") {
        event := TrimSpace(line[6..]);
      } else if HasPrefix(line, "data:") {
        data := TrimSpace(line[5..]);
      }
    }
  }

  // ---------------------------------------------------------------- round trip

  predicate WellFormed(e: Event) {
    IsClean(e.name) && IsClean(e.data) && e != Event("", "")
  }

  lemma {:induction false} NewlineAt(line: string, rest: string)
    requires '\n' !in line
    ensures FindNewline(line + "\n" + rest) == Some(|line|)
    ensures (line + "\n" + rest)[..|line|] == line && (line + "\n" + rest)[|line| + 1..] == rest
  {
    if line != "" {
      assert (line + "\n" + rest)[1..] == line[1..] + "\n" + rest;
      NewlineAt(line[1..], rest);
    }
  }

  lemma TrimClean(s: string)
    requires IsTrimmed(s)
    ensures TrimSpace(s) == s && TrimSpace(" " + s) == s
  {
    assert (" " + s)[1..] == s;
    assert TrimLeft(s) == s == TrimLeft(" " + s);
  }

  lemma {:induction false} ReadLine(line: string, partial: Event, rest: string)
    requires IsClean(line) && line != ""
    ensures ReadFrom(line + "\n" + rest, partial) == ReadFrom(rest, TakeLine(line, partial))
  {
    NewlineAt(line, rest);
    TrimClean(line);
  }

  lemma {:induction false} ReadBlank(partial: Event, rest: string)
    requires partial != Event("", "")
    ensures ReadFrom("\n" + rest, partial) == [partial] + Read(rest)
  {
    NewlineAt("", rest);
    assert "" + "\n" + rest == "\n" + rest;
  }

  lemma TakeName(value: string, partial: Event)
    requires value != "" && IsClean(value)
    ensures var line := "event: " + value; IsClean(line) && TakeLine(line, partial) == partial.(name := value)
  {
    var line := "event: " + value;
    assert line[0] == 'e' && line[|line| - 1] == value[|value| - 1];
    assert line[..6] == "event:" && line[6..] == " " + value;
    TrimClean(value);
  }

  lemma TakeData(value: string, partial: Event)
    requires value != "" && IsClean(value)
    ensures var line := "data: " + value; IsClean(line) && TakeLine(line, partial) == partial.(data := value)
  {
    var line := "data: " + value;
    assert line[0] == 'd' && line[|line| - 1] == value[|value| - 1];
    assert line[..5] == "data:" && line[5..] == " " + value;
    TrimClean(value);
    assert !HasPrefix(line, "event:");
  }

  lemma {:induction false} ReadDataLine(e: Event, rest: string)
    requires IsClean(e.data)
    ensures ReadFrom(DataLine(e) + rest, Event(e.name, "")) == ReadFrom(rest, e)
  {
    if e.data != "" {
      TakeData(e.data, Event(e.name, ""));
      ReadLine("data: " + e.data, Event(e.name, ""), rest);
    } else {
      assert "" + rest == rest;
    }
  }

  lemma {:induction false} ReadNameLine(e: Event, rest: string)
    requires IsClean(e.name)
    ensures Read(NameLine(e) + rest) == ReadFrom(rest, Event(e.name, ""))
  {
    if e.name != "" {
      TakeName(e.name, Event("", ""));
      ReadLine("event: " + e.name, Event("", ""), rest);
    } else {
      assert "" + rest == rest;
    }
  }

  function NameLine(e: Event): string {
    if e.name != "" then "event: " + e.name + "\n" else ""
  }

  function DataLine(e: Event): string {
    if e.data != "" then "data: " + e.data + "\n" else ""
  }

  lemma {:induction false} PrintSplits(e: Event, rest: string)
    ensures PrintEvent(e) + rest == NameLine(e) + (DataLine(e) + ("\n" + rest))
  {
    var a, b := NameLine(e), DataLine(e);
    assert PrintEvent(e) == a + b + "\n";
    assert a + b + "\n" + rest == a + (b + ("\n" + rest));
  }

  /** Reading one printed event dispatches it and leaks nothing into what follows. */
  lemma {:induction false} ReadOneEvent(e: Event, rest: string)
    requires WellFormed(e)
    ensures Read(PrintEvent(e) + rest) == [e] + Read(rest)
  {
    PrintSplits(e, rest);
    ReadNameLine(e, DataLine(e) + ("\n" + rest));
    ReadDataLine(e, "\n" + rest);
    ReadBlank(e, rest);
  }

  lemma {:induction false} ReadEventList(es: seq<Event>)
    requires forall i :: 0 <= i < |es| ==> WellFormed(es[i])
    ensures Read(PrintEvents(es)) == es
  {
    if es != [] {
      ReadOneEvent(es[0], PrintEvents(es[1..]));
      ReadEventList(es[1..]);
    }
  }

  /** Whatever the stream, only well-formed events are dispatched. */
  lemma {:induction false} ReadIsWellFormed(s: string, partial: Event)
    requires IsClean(partial.name) && IsClean(partial.data)
    ensures forall i :: 0 <= i < |ReadFrom(s, partial)| ==> WellFormed(ReadFrom(s, partial)[i])
    decreases |s|
  {
    var end := FindNewline(s);
    if end.Some? {
      var line, rest := TrimSpace(s[..end.value]), s[end.value + 1..];
      TrimmedIsClean(s[..end.value]);
      if line != "" {
        if HasPrefix(line, "event:") { TrimmedIsClean(line[6..]); }
        else if HasPrefix(line, "data:") { TrimmedIsClean(line[5..]); }
        ReadIsWellFormed(rest, TakeLine(line, partial));
      } else {
        ReadIsWellFormed(rest, Event("", ""));
      }
    }
  }

  // ---------------------------------------------------------------- lines of any stream

  predicate Blank(s: string) {
    forall i :: 0 <= i < |s| ==> IsSpace(s[i]) && s[i] != '\n'
  }

  lemma {:induction false} TrimLeftBlank(pad: string, s: string)
    requires Blank(pad)
    ensures TrimLeft(pad + s) == TrimLeft(s)
  {
    if pad == "" {
      assert pad + s == s;
    } else {
      assert (pad + s)[0] == pad[0] && (pad + s)[1..] == pad[1..] + s;
      TrimLeftBlank(pad[1..], s);
    }
  }

  lemma {:induction false} TrimRightBlank(s: string, pad: string)
    requires Blank(pad)
    ensures TrimRight(s + pad) == TrimRight(s)
  {
    if pad == "" {
      assert s + pad == s;
    } else {
      var n := |pad| - 1;
      assert (s + pad)[|s + pad| - 1] == pad[n] && (s + pad)[..|s + pad| - 1] == s + pad[..n];
      TrimRightBlank(s, pad[..n]);
    }
  }

  /** White space around a trimmed text goes. */
  lemma {:induction false} TrimPadded(before: string, s: string, after: string)
    requires Blank(before) && Blank(after) && IsTrimmed(s)
    ensures TrimSpace(before + s + after) == s
  {
    assert before + s + after == before + (s + after);
    TrimLeftBlank(before, s + after);
    if s == "" {
      assert s + after == after + "";
      TrimLeftBlank(after, "");
    } else {
      assert (s + after)[0] == s[0];
      TrimRightBlank(s, after);
    }
  }

  lemma {:induction false} ReadPadded(before: string, line: string, after: string, partial: Event, rest: string)
    requires Blank(before) && Blank(after) && IsClean(line) && line != ""
    ensures ReadFrom(before + line + after + "\n" + rest, partial) == ReadFrom(rest, TakeLine(line, partial))
  {
    TrimPadded(before, line, after);
    NewlineAt(before + line + after, rest);
  }

  function FieldLine(field: string, gap: string, value: string): string {
    if value == "" then field else field + gap + value
  }

  lemma {:induction false} FieldLineShape(field: string, gap: string, value: string)
    requires field != "" && IsClean(field) && Blank(gap) && IsClean(value)
    ensures var line := FieldLine(field, gap, value);
      IsClean(line) && line != "" && HasPrefix(line, field) && TrimSpace(line[|field|..]) == value && line[0] == field[0]
  {
    var line := FieldLine(field, gap, value);
    assert line[..|field|] == field;
    if value == "" {
      TrimPadded("", "", "");
      assert line[|field|..] == "" + "" + "";
    } else {
      TrimPadded(gap, value, "");
      assert line[|field|..] == gap + value + "";
      assert line[|line| - 1] == value[|value| - 1];
    }
  }

  lemma {:induction false} TakeEvent(gap: string, value: string, partial: Event)
    requires Blank(gap) && IsClean(value)
    ensures var line := FieldLine("event:", gap, value);
      IsClean(line) && line != "" && TakeLine(line, partial) == partial.(name := value)
  {
    FieldLineShape("event:", gap, value);
  }

  lemma {:induction false} TakeDatum(gap: string, value: string, partial: Event)
    requires Blank(gap) && IsClean(value)
    ensures var line := FieldLine("data:", gap, value);
      IsClean(line) && line != "" && TakeLine(line, partial) == partial.(data := value)
  {
    FieldLineShape("data:", gap, value);
    assert FieldLine("data:", gap, value)[0] == 'd';
  }

  lemma {:induction false} FieldLineGroups(before: string, field: string, gap: string, value: string, after: string)
    ensures value != "" ==> before + field + gap + value + after == before + FieldLine(field, gap, value) + after
    ensures value == "" ==> before + field + gap + value + after == before + FieldLine(field, gap, value) + (gap + after)
  {
    if value != "" {
      assert before + (field + gap + value) == before + field + gap + value;
    } else {
      assert before + field + gap + value == before + field + gap;
      assert before + field + (gap + after) == before + field + gap + after;
    }
  }

  lemma {:induction false} PaddedFieldRead(before: string, field: string, gap: string, value: string, after: string, partial: Event, rest: string)
    requires Blank(before) && Blank(gap) && Blank(after) && IsClean(FieldLine(field, gap, value)) && FieldLine(field, gap, value) != ""
    ensures ReadFrom(before + field + gap + value + after + "\n" + rest, partial) ==
              ReadFrom(rest, TakeLine(FieldLine(field, gap, value), partial))
  {
    FieldLineGroups(before, field, gap, value, after);
    ReadPadded(before, FieldLine(field, gap, value), if value == "" then gap + after else after, partial, rest);
  }

  /** In any stream a line with a field sets that field, with or without spaces around field and value. */
  lemma {:induction false} FieldLineRead(before: string, gap: string, value: string, after: string, partial: Event, rest: string)
    requires Blank(before) && Blank(gap) && Blank(after) && IsClean(value)
    ensures ReadFrom(before + "event:" + gap + value + after + "\n" + rest, partial) == ReadFrom(rest, partial.(name := value))
    ensures ReadFrom(before + "data:" + gap + value + after + "\n" + rest, partial) == ReadFrom(rest, partial.(data := value))
  {
    TakeEvent(gap, value, partial);
    TakeDatum(gap, value, partial);
    PaddedFieldRead(before, "event:", gap, value, after, partial, rest);
    PaddedFieldRead(before, "data:", gap, value, after, partial, rest);
  }

  /** Any other line, such as a comment, an id or a retry time, changes nothing. */
  lemma {:induction false} OtherLineIgnored(before: string, line: string, after: string, partial: Event, rest: string)
    requires Blank(before) && Blank(after) && IsClean(line) && line != ""
    requires !(exists value :: line == "event:" + value) && !(exists value :: line == "data:" + value)
    ensures ReadFrom(before + line + after + "\n" + rest, partial) == ReadFrom(rest, partial)
  {
    ReadPadded(before, line, after, partial, rest);
    PrefixIff(line, "event:");
    PrefixIff(line, "data:");
  }

  /** A blank line dispatches what has been collected, if anything, and starts over. */
  lemma {:induction false} BlankLineDispatches(blank: string, partial: Event, rest: string)
    requires Blank(blank)
    ensures ReadFrom(blank + "\n" + rest, partial) == (if partial == Event("", "") then [] else [partial]) + Read(rest)
  {
    TrimPadded(blank, "", "");
    assert blank + "" + "" == blank;
    NewlineAt(blank, rest);
  }

  /** An unfinished last line and the event it belongs to are dropped. */
  lemma {:induction false} UnfinishedDropped(tail: string, partial: Event)
    requires '\n' !in tail
    ensures ReadFrom(tail, partial) == []
  {
  }

  // ---------------------------------------------------------------- sequences of events

  /** The printed sequence is read back unchanged exactly when every event is well-formed. */
  lemma RoundTrip(es: seq<Event>)
    ensures Read(PrintEvents(es)) == es <==> forall i :: 0 <= i < |es| ==> WellFormed(es[i])
  {
    if forall i :: 0 <= i < |es| ==> WellFormed(es[i]) {
      ReadEventList(es);
    }
    if Read(PrintEvents(es)) == es {
      ReadIsWellFormed(PrintEvents(es), Event("", ""));
    }
  }
}

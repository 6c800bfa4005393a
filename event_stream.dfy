/**
 * A reference decoder for `text/event-stream`, following "Parsing an event stream" and
 * "Interpreting an event stream" (sections 9.2.5 and 9.2.6 of the WHATWG HTML Living
 * Standard): the stream is cut into lines, which are fed one at a time; a field line
 * is split at its first colon and one space after the colon is dropped; "event" sets the event
 * type buffer, "data" appends its value and a line feed to the data buffer; a blank line
 * dispatches an event (nothing when the data buffer is empty) and resets both buffers; a
 * comment line (leading colon) and other fields change no event.
 */
module EventStream {
  import opened Text

  /** A dispatched event: its type and its data. */
  datatype Event = Event(kind: string, data: string)

  /** The decoder's two buffers and the events dispatched so far. */
  datatype Decoder = Decoder(eventType: string, data: string, events: seq<Event>)

  /** Dispatching at a blank line: the trailing line feed of the data is dropped. */
  function Dispatch(d: Decoder): (r: Decoder)
    ensures r.eventType == [] && r.data == []
    ensures d.data == [] ==> r.events == d.events
    ensures d.data != [] ==> |r.events| == |d.events| + 1 && r.events[..|d.events|] == d.events
  {
    if d.data == [] then Decoder([], [], d.events)
    else
      var data := if d.data[|d.data| - 1] == '\n' then d.data[..|d.data| - 1] else d.data;
      Decoder([], [], d.events + [Event(if d.eventType == [] then "message" else d.eventType, data)])
  }

  /** A field line as (name, value): split at the first colon, one leading space dropped. */
  function Field(line: string): (r: (string, string))
    ensures ':' !in r.0
  {
    if ':' in line then
      var i := IndexOf(line, ':');
      var value := line[i + 1..];
      (line[..i], if value != [] && value[0] == ' ' then value[1..] else value)
    else (line, [])
  }

  function ProcessLine(d: Decoder, line: string): Decoder {
    if line == [] then Dispatch(d)
    else if line[0] == ':' then d
    else
      var (name, value) := Field(line);
      if name == "event" then d.(eventType := value)
      else if name == "data" then d.(data := d.data + value + "\n")
      else d  // "id", "retry" and unknown fields dispatch nothing
  }

  function ProcessLines(d: Decoder, lines: seq<string>): Decoder
    decreases |lines|
  {
    if lines == [] then d else ProcessLines(ProcessLine(d, lines[0]), lines[1..])
  }

  lemma ProcessLinesCons(d: Decoder, line: string, rest: seq<string>)
    ensures ProcessLines(d, [line] + rest) == ProcessLines(ProcessLine(d, line), rest)
  {
    assert ([line] + rest)[1..] == rest;
  }

  /**
   * The events a client receives from `stream`. A last line without its line feed is never
   * processed, and an event whose blank line has not arrived is never dispatched.
   */
  function Decode(stream: string): seq<Event> {
    ProcessLines(Decoder([], [], []), CompleteLines(stream)).events
  }
}

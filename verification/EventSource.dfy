/**
 A reader of event streams, written from section 9.2.6 of the WHATWG HTML Living Standard:
 lines end in CR, LF or both, fields are read up to an empty line, which dispatches the
 event if it has data. Retry times and last event identifiers are read past.
 */
module EventSource {
  import opened HttpMessage

  // An event without a name is a message.
  datatype Event = Event(name: string, data: string)

  predicate EndsLine(c: char) { c == '\n' || c == '\r' }

  predicate OneLine(s: string) { forall i :: 0 <= i < |s| ==> !EndsLine(s[i]) }

  // How long the first line of s is.
  function LineLength(s: string): (n: nat)
    ensures n <= |s| && OneLine(s[..n])
    ensures n < |s| ==> EndsLine(s[n])
  {
    if s == "" || EndsLine(s[0]) then 0
    else
      var n := LineLength(s[1..]);
      assert forall i :: 1 <= i <= n ==> s[i] == s[1..][i - 1];
      n + 1
  }

  function AfterLine(s: string): (rest: string)
    requires LineLength(s) < |s|
    ensures |rest| < |s|
  {
    var n := LineLength(s);
    if s[n] == '\r' && n + 1 < |s| && s[n + 1] == '\n' then s[n + 2..] else s[n + 1..]
  }

  // A field's name is what stands before its colon, and one space after it does not count.
  function FieldName(line: string): string { line[..Find(line, ':')] }

  function FieldValue(line: string): string {
    var n := Find(line, ':');
    if n == |line| then "" else if n + 1 < |line| && line[n + 1] == ' ' then line[n + 2..] else line[n + 1..]
  }

  // The events of s, name and data having been read before it; an event s leaves open is dropped.
  function Read(s: string, name: string, data: string): seq<Event>
    decreases |s|
  {
    var n := LineLength(s);
    if n == |s| then []
    else if n == 0 then
      (if data == "" then [] else [Event(name, data[..|data| - 1])]) + Read(AfterLine(s), "", "")
    else if FieldName(s[..n]) == "event" then Read(AfterLine(s), FieldValue(s[..n]), data)
    else if FieldName(s[..n]) == "data" then Read(AfterLine(s), name, data + FieldValue(s[..n]) + "\n")
    else Read(AfterLine(s), name, data)
  }

  function Events(s: string): seq<Event> { Read(s, "", "") }

  // ---------------------------------------------------------------- reading what was written

  lemma {:induction false} LineFound(line: string, rest: string)
    requires OneLine(line)
    ensures LineLength(line + "\n" + rest) == |line|
    decreases |line|
  {
    var s := line + "\n" + rest;
    if line != "" {
      assert s[0] == line[0] && s[1..] == line[1..] + "\n" + rest;
      LineFound(line[1..], rest);
    }
  }

  lemma LineRead(line: string, rest: string)
    requires OneLine(line)
    ensures var s := line + "\n" + rest;
      LineLength(s) == |line| < |s| && s[..|line|] == line && AfterLine(s) == rest
  {
    LineFound(line, rest);
  }

  lemma FieldRead(field: string, value: string)
    requires ':' !in field
    ensures FieldName(field + ": " + value) == field && FieldValue(field + ": " + value) == value
  {
    var line := field + ": " + value;
    FirstColon(field, " " + value);
    assert line == field + ":" + (" " + value);
    assert line[|field|] == ':' && line[|field| + 1] == ' ';
    assert line[..|field|] == field && line[|field| + 2..] == value;
  }

  lemma {:induction false} FirstColon(field: string, rest: string)
    requires ':' !in field
    ensures Find(field + ":" + rest, ':') == |field|
    decreases |field|
  {
    var s := field + ":" + rest;
    if field != "" {
      assert s[0] == field[0] && s[1..] == field[1..] + ":" + rest;
      FirstColon(field[1..], rest);
    }
  }

  lemma NameLine(name: string, rest: string, was: string, data: string)
    requires OneLine(name)
    ensures Read("event: " + name + "\n" + rest, was, data) == Read(rest, name, data)
  {
    hide Read, LineLength, AfterLine, FieldName, FieldValue, Find;
    var line := "event" + ": " + name;
    assert line == "event: " + name;
    LineRead(line, rest);
    FieldRead("event", name);
    NameStep(line, rest, was, data);
  }

  lemma NameStep(line: string, rest: string, was: string, data: string)
    requires var s := line + "\n" + rest; LineLength(s) == |line| < |s| && s[..|line|] == line && AfterLine(s) == rest
    requires line != "" && FieldName(line) == "event"
    ensures Read(line + "\n" + rest, was, data) == Read(rest, FieldValue(line), data)
  {
    hide LineLength, AfterLine, FieldName, FieldValue;
  }

  lemma DataLine(json: string, rest: string, name: string)
    requires OneLine(json)
    ensures Read("data: " + json + "\n" + rest, name, "") == Read(rest, name, json + "\n")
  {
    hide Read, LineLength, AfterLine, FieldName, FieldValue, Find;
    var line := "data" + ": " + json;
    assert line == "data: " + json;
    LineRead(line, rest);
    FieldRead("data", json);
    DataStep(line, rest, name);
    assert "" + json + "\n" == json + "\n";
  }

  lemma DataStep(line: string, rest: string, name: string)
    requires var s := line + "\n" + rest; LineLength(s) == |line| < |s| && s[..|line|] == line && AfterLine(s) == rest
    requires line != "" && FieldName(line) == "data"
    ensures Read(line + "\n" + rest, name, "") == Read(rest, name, "" + FieldValue(line) + "\n")
  {
    hide LineLength, AfterLine, FieldName, FieldValue;
    assert "data" != "event" by { assert "data"[0] != "event"[0]; }
  }

  lemma EndLine(json: string, rest: string, name: string)
    ensures Read("\n" + rest, name, json + "\n") == [Event(name, json)] + Events(rest)
  {
    var s := "\n" + rest;
    assert LineLength(s) == 0 && AfterLine(s) == rest;
    assert (json + "\n")[..|json|] == json;
  }

  // An event written as two fields and an empty line is read back, and reading goes on after it.
  lemma EventRead(name: string, json: string, rest: string)
    requires OneLine(name) && OneLine(json)
    ensures Events("event: " + name + "\n" + ("data: " + json + "\n" + ("\n" + rest))) == [Event(name, json)] + Events(rest)
  {
    hide Read;
    NameLine(name, "data: " + json + "\n" + ("\n" + rest), "", "");
    DataLine(json, "\n" + rest, name);
    EndLine(json, rest, name);
  }
}

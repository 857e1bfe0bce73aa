/**
  The two-file operation log: an append-only event file and a manifest that is
  replaced atomically, written in that order, with an interruption possible
  after every step.
*/
module OperationLog {
  import opened Basics
  import opened Operations

  // ---- framing: one JSON text per line ----

  /** Every character at which Python's `splitlines` ends a line. */
  predicate Boundary(c: char) {
    c in {'\n', '\r', '\U{B}', '\U{C}', '\U{1C}', '\U{1D}', '\U{1E}', '\U{85}', '\U{2028}', '\U{2029}'}
  }

  /** The serializer escapes control characters and leaves everything else raw. */
  predicate JsonText(line: string) {
    line != "" && forall i :: 0 <= i < |line| ==> line[i] >= ' '
  }

  function Frame(lines: seq<string>): string {
    if lines == [] then "" else lines[0] + "\n" + Frame(lines[1..])
  }

  /** `splitlines`, with `\r\n` as one boundary; `current` is the line read so far. */
  function SplitLines(text: string, current: string): seq<string>
    decreases |text|
  {
    if text == "" then if current == "" then [] else [current]
    else if text[0] == '\r' && |text| > 1 && text[1] == '\n' then [current] + SplitLines(text[2..], "")
    else if Boundary(text[0]) then [current] + SplitLines(text[1..], "")
    else SplitLines(text[1..], current + [text[0]])
  }

  function Breaks(line: string): nat {
    if line == "" then 0 else (if Boundary(line[0]) then 1 else 0) + Breaks(line[1..])
  }

  function TotalBreaks(lines: seq<string>): nat {
    if lines == [] then 0 else Breaks(lines[0]) + TotalBreaks(lines[1..])
  }

  lemma {:induction false} LineIsRead(line: string, rest: string, current: string)
    requires forall i :: 0 <= i < |line| ==> line[i] >= ' '
    ensures |SplitLines(line + "\n" + rest, current)| == Breaks(line) + 1 + |SplitLines(rest, "")|
    ensures Breaks(line) == 0 ==> SplitLines(line + "\n" + rest, current) == [current + line] + SplitLines(rest, "")
    decreases |line|
  {
    var text := line + "\n" + rest;
    if line == "" {
      assert text[1..] == rest;
      assert current + line == current;
    } else {
      assert text[1..] == line[1..] + "\n" + rest;
      if Boundary(line[0]) {
        LineIsRead(line[1..], rest, "");
      } else {
        LineIsRead(line[1..], rest, current + [line[0]]);
        assert current + [line[0]] + line[1..] == current + line;
      }
    }
  }

  /** A carriage return before a newline does not start a line of its own. */
  lemma {:induction false} CarriageReturnIsAbsorbed(line: string, rest: string, current: string)
    requires forall i :: 0 <= i < |line| ==> !Boundary(line[i])
    ensures SplitLines(line + "\r\n" + rest, current) == [current + line] + SplitLines(rest, "")
    decreases |line|
  {
    var text := line + "\r\n" + rest;
    if line == "" {
      assert text[2..] == rest && current + line == current;
    } else {
      assert text[1..] == line[1..] + "\r\n" + rest && text[0] == line[0];
      CarriageReturnIsAbsorbed(line[1..], rest, current + [line[0]]);
      assert current + [line[0]] + line[1..] == current + line;
    }
  }

  lemma {:induction false} FramedLinesAreCounted(lines: seq<string>)
    requires forall line <- lines :: JsonText(line)
    ensures |SplitLines(Frame(lines), "")| == |lines| + TotalBreaks(lines)
    ensures TotalBreaks(lines) == 0 ==> SplitLines(Frame(lines), "") == lines
  {
    if lines == [] {
    } else {
      FramedLinesAreCounted(lines[1..]);
      assert JsonText(lines[0]);
      LineIsRead(lines[0], Frame(lines[1..]), "");
      assert "" + lines[0] == lines[0];
      assert lines == [lines[0]] + lines[1..];
    }
  }

  lemma {:induction false} NoBreaks(line: string)
    requires JsonText(line) || line == ""
    ensures Breaks(line) == 0 <==> forall i :: 0 <= i < |line| ==> line[i] !in {'\U{85}', '\U{2028}', '\U{2029}'}
  {
    if line == "" {
    } else {
      var rest := line[1..];
      assert forall i :: 0 <= i < |rest| ==> rest[i] == line[i + 1];
      NoBreaks(rest);
      assert forall i :: 1 <= i < |line| ==> line[i] == rest[i - 1];
      assert Boundary(line[0]) <==> line[0] in {'\U{85}', '\U{2028}', '\U{2029}'};
    }
  }

  lemma {:induction false} NoTotalBreaks(lines: seq<string>)
    ensures TotalBreaks(lines) == 0 <==> forall line <- lines :: Breaks(line) == 0
  {
    if lines == [] {
    } else {
      NoTotalBreaks(lines[1..]);
      forall line ensures line in lines <==> line == lines[0] || line in lines[1..] {
        assert lines == [lines[0]] + lines[1..];
      }
      assert lines[0] in lines;
    }
  }

  /** Exactly three raw characters that JSON permits break the framing. */
  predicate Whole(line: string) {
    forall i :: 0 <= i < |line| ==> line[i] !in {'\U{85}', '\U{2028}', '\U{2029}'}
  }

  /** What was framed is what is read, exactly when no record holds a raw Unicode line separator. */
  lemma FramingRoundTrip(lines: seq<string>)
    requires forall line <- lines :: JsonText(line)
    ensures SplitLines(Frame(lines), "") == lines <==> forall line <- lines :: Whole(line)
  {
    FramedLinesAreCounted(lines);
    NoTotalBreaks(lines);
    forall line <- lines ensures Breaks(line) == 0 <==> Whole(line) { NoBreaks(line); }
  }

  /** A torn append leaves a file that does not end in a newline, so the reader refuses it. */
  lemma TornAppendIsTruncated(lines: seq<string>, line: string, written: nat)
    requires JsonText(line) && 0 < written <= |line|
    ensures var text := Frame(lines) + (line + "\n")[..written]; text != "" && text[|text| - 1] != '\n'
  {
    var text := Frame(lines) + (line + "\n")[..written];
    assert text[|text| - 1] == line[written - 1];
  }

  /** The first broken record shows up as a proper prefix of itself. */
  lemma {:induction false} BreakIsRead(line: string, rest: string, current: string) returns (n: nat)
    requires (forall i :: 0 <= i < |line| ==> line[i] >= ' ') && !Whole(line)
    ensures n < |line| && SplitLines(line + "\n" + rest, current) != []
    ensures SplitLines(line + "\n" + rest, current)[0] == current + line[..n]
    decreases |line|
  {
    var text := line + "\n" + rest;
    assert text[1..] == line[1..] + "\n" + rest;
    if Boundary(line[0]) {
      n := 0;
      assert current + line[..0] == current;
    } else {
      assert !Whole(line[1..]) by {
        var i :| 0 <= i < |line| && line[i] in {'\U{85}', '\U{2028}', '\U{2029}'};
        assert line[1..][i - 1] == line[i];
      }
      n := BreakIsRead(line[1..], rest, current + [line[0]]);
      assert current + [line[0]] + line[1..][..n] == current + line[..n + 1];
      n := n + 1;
    }
  }

  lemma {:induction false} FirstBreakIsRead(lines: seq<string>, k: nat) returns (n: nat)
    requires (forall line <- lines :: JsonText(line)) && k < |lines| && !Whole(lines[k])
    requires forall i :: 0 <= i < k ==> Whole(lines[i])
    ensures n < |lines[k]| && k < |SplitLines(Frame(lines), "")|
    ensures SplitLines(Frame(lines), "")[k] == lines[k][..n]
    decreases |lines|
  {
    assert JsonText(lines[0]);
    if k == 0 {
      n := BreakIsRead(lines[0], Frame(lines[1..]), "");
      assert "" + lines[0][..n] == lines[0][..n];
    } else {
      n := FirstBreakIsRead(lines[1..], k - 1);
      NoBreaks(lines[0]);
      LineIsRead(lines[0], Frame(lines[1..]), "");
    }
  }

  // ---- records and files ----

  const MAX_EVENT_BYTES: nat := 1048576
  const MAX_EVENT_COUNT: nat := 256
  const MAX_EVENT_LOG_BYTES: nat := 33554432

  function EncodedBytes(text: string): nat {
    if text == "" then 0
    else (if text[0] < '\U{80}' then 1 else if text[0] < '\U{800}' then 2 else if text[0] < '\U{10000}' then 3 else 4)
         + EncodedBytes(text[1..])
  }

  lemma {:induction false} BytesAdd(a: string, b: string)
    ensures EncodedBytes(a + b) == EncodedBytes(a) + EncodedBytes(b)
  {
    if a == "" {
      assert a + b == b;
    } else {
      assert (a + b)[1..] == a[1..] + b;
      BytesAdd(a[1..], b);
    }
  }

  lemma {:induction false} FrameGrows(lines: seq<string>, line: string)
    ensures Frame(lines + [line]) == Frame(lines) + (line + "\n")
  {
    if lines == [] {
      assert (lines + [line])[1..] == [];
    } else {
      assert (lines + [line])[1..] == lines[1..] + [line];
      FrameGrows(lines[1..], line);
    }
  }

  lemma {:induction false} FrameEndsInNewline(lines: seq<string>)
    requires lines != []
    ensures Frame(lines) != "" && Frame(lines)[|Frame(lines)| - 1] == '\n'
  {
    if |lines| == 1 {
      assert Frame(lines[1..]) == "";
    } else {
      FrameEndsInNewline(lines[1..]);
    }
  }

  /** One event; `payload` is its message and evidence. */
  datatype Record = Record(sequence: nat, timestamp: nat, status: OperationStatus, stage: Stage, payload: string)

  /** Serialization: decoding inverts encoding, and no beginning of a serialized record is one itself. */
  ghost predicate Codec(encode: Record -> string, decode: string -> Option<Record>) {
    forall e: Record ::
      && JsonText(encode(e)) && decode(encode(e)) == Some(e)
      && forall n :: 0 < n < |encode(e)| ==> decode(encode(e)[..n]) == None
  }

  /** The operation directory: manifest, event file with its torn tail, and a temporary left behind. */
  datatype Files = Files(manifest: Option<Operation>, events: seq<Record>, partial: string, leftover: bool)

  function Texts(events: seq<Record>, encode: Record -> string): seq<string> {
    seq(|events|, i requires 0 <= i < |events| => encode(events[i]))
  }

  /** What the event file holds. */
  function Text(f: Files, encode: Record -> string): string {
    Frame(Texts(f.events, encode)) + f.partial
  }

  /** A torn tail never reaches its newline. */
  predicate Torn(f: Files) {
    forall i :: 0 <= i < |f.partial| ==> f.partial[i] >= ' '
  }

  predicate ReadableRecord(events: seq<Record>, encode: Record -> string, i: nat)
    requires i < |events|
  {
    && Whole(encode(events[i])) && EncodedBytes(encode(events[i])) + 1 <= MAX_EVENT_BYTES
    && events[i].sequence == i + 1
    && (i > 0 ==> events[i - 1].timestamp <= events[i].timestamp)
  }

  predicate ReadableLog(f: Files, encode: Record -> string) {
    && f.partial == "" && f.events != [] && |f.events| <= MAX_EVENT_COUNT
    && EncodedBytes(Text(f, encode)) <= MAX_EVENT_LOG_BYTES
    && forall i :: 0 <= i < |f.events| ==> ReadableRecord(f.events, encode, i)
  }

  // ---- reading the text ----

  predicate ReadableLine(lines: seq<string>, decode: string -> Option<Record>, i: nat)
    requires i < |lines|
  {
    && lines[i] != "" && EncodedBytes(lines[i]) + 1 <= MAX_EVENT_BYTES
    && decode(lines[i]).Some? && decode(lines[i]).value.sequence == i + 1
    && (i > 0 ==> decode(lines[i - 1]).Some? && decode(lines[i - 1]).value.timestamp <= decode(lines[i]).value.timestamp)
  }

  predicate ReadableText(text: string, decode: string -> Option<Record>) {
    && EncodedBytes(text) <= MAX_EVENT_LOG_BYTES && text != "" && text[|text| - 1] == '\n'
    && |SplitLines(text, "")| <= MAX_EVENT_COUNT
    && forall i :: 0 <= i < |SplitLines(text, "")| ==> ReadableLine(SplitLines(text, ""), decode, i)
  }

  /** The reading loop over the lines of the file, with its running sequence and timestamp. */
  method ReadEvents(text: string, decode: string -> Option<Record>) returns (events: Option<seq<Record>>)
    ensures events.Some? <==> ReadableText(text, decode)
    ensures events.Some? ==>
              && |events.value| == |SplitLines(text, "")|
              && forall i :: 0 <= i < |events.value| ==> decode(SplitLines(text, "")[i]) == Some(events.value[i])
  {
    if EncodedBytes(text) > MAX_EVENT_LOG_BYTES || text == "" || text[|text| - 1] != '\n' { return None; }
    var lines := SplitLines(text, "");
    var read: seq<Record> := [];
    while |read| < |lines|
      invariant |read| <= |lines| && |read| <= MAX_EVENT_COUNT
      invariant forall i :: 0 <= i < |read| ==> decode(lines[i]) == Some(read[i]) && ReadableLine(lines, decode, i)
      decreases |lines| - |read|
    {
      var i := |read|;
      if i + 1 > MAX_EVENT_COUNT { return None; }
      var event := decode(lines[i]);
      if lines[i] == "" || EncodedBytes(lines[i]) + 1 > MAX_EVENT_BYTES || event == None || event.value.sequence != i + 1 {
        assert !ReadableLine(lines, decode, i);
        return None;
      }
      if i > 0 && event.value.timestamp < read[i - 1].timestamp {
        assert !ReadableLine(lines, decode, i);
        return None;
      }
      read := read + [event.value];
    }
    events := Some(read);
  }

  /** Reading the file gives back exactly the records, and exactly when the log is readable. */
  lemma TextReadsAsRecords(f: Files, encode: Record -> string, decode: string -> Option<Record>)
    requires Codec(encode, decode) && Torn(f)
    ensures ReadableText(Text(f, encode), decode) <==> ReadableLog(f, encode)
    ensures ReadableLog(f, encode) ==> SplitLines(Text(f, encode), "") == Texts(f.events, encode)
  {
    var texts := Texts(f.events, encode);
    var text := Text(f, encode);
    forall line | line in texts ensures JsonText(line) {
      var i :| 0 <= i < |texts| && texts[i] == line;
    }
    if f.partial != "" {
      assert text[|text| - 1] == f.partial[|f.partial| - 1];
    } else if f.events == [] {
      assert text == "";
    } else {
      assert text == Frame(texts);
      FrameEndsInNewline(texts);
      if k: nat :| k < |texts| && !Whole(texts[k]) {
        BrokenTextIsRefused(f, encode, decode, k);
      } else {
        FramingRoundTrip(texts);
        forall i | 0 <= i < |texts| ensures ReadableLine(texts, decode, i) <==> ReadableRecord(f.events, encode, i) {
          assert decode(texts[i]) == Some(f.events[i]) && JsonText(texts[i]);
          assert i > 0 ==> decode(texts[i - 1]) == Some(f.events[i - 1]);
        }
      }
    }
  }

  lemma BrokenTextIsRefused(f: Files, encode: Record -> string, decode: string -> Option<Record>, k: nat)
    requires Codec(encode, decode) && f.partial == "" && k < |f.events| && !Whole(encode(f.events[k]))
    requires forall line <- Texts(f.events, encode) :: JsonText(line)
    ensures !ReadableText(Text(f, encode), decode) && !ReadableLog(f, encode)
    decreases k
  {
    var texts := Texts(f.events, encode);
    assert Text(f, encode) == Frame(texts);
    if j: nat :| j < k && !Whole(texts[j]) {
      BrokenTextIsRefused(f, encode, decode, j);
    } else {
      var n := FirstBreakIsRead(texts, k);
      assert !ReadableLine(SplitLines(Frame(texts), ""), decode, k);
      assert !ReadableRecord(f.events, encode, k);
    }
  }

  // ---- calls ----

  /** One store call with the message and evidence it records. */
  datatype LogCall = LogCall(call: OperationCall, payload: string)

  function NextRecord(m: Operation, c: LogCall): Record {
    var next := NextOperation(m, c.call);
    Record(next.lastSequence, c.call.now, next.status, next.stage, c.payload)
  }

  /** The manifest, only when both files agree completely. */
  function ReadConsistent(f: Files, encode: Record -> string): Option<Operation> {
    if f.leftover || f.manifest == None || !ValidOperation(f.manifest.value) || !ReadableLog(f, encode) then None
    else
      var m, final := f.manifest.value, f.events[|f.events| - 1];
      if m.lastSequence != |f.events| || final.status != m.status || final.stage != m.stage
         || final.timestamp != m.updatedAt then None
      else Some(m)
  }

  /** When a call is carried out at all: the current state reads, and every check passes. */
  predicate Accepts(f: Files, encode: Record -> string, c: LogCall) {
    && ReadConsistent(f, encode).Some?
    && var m := ReadConsistent(f, encode).value;
       var line := encode(NextRecord(m, c));
       && ApplyOperation(m, c.call).Ok?
       && EncodedBytes(line) + 1 <= MAX_EVENT_BYTES && |f.events| < MAX_EVENT_COUNT
       && EncodedBytes(Text(f, encode)) + EncodedBytes(line) + 1 <= MAX_EVENT_LOG_BYTES
  }

  function Stored(f: Files, encode: Record -> string, c: LogCall): Files
    requires ReadConsistent(f, encode).Some?
  {
    var m := ReadConsistent(f, encode).value;
    Files(Some(NextOperation(m, c.call)), f.events + [NextRecord(m, c)], "", false)
  }

  datatype Outcome = Completed | Refused | Interrupted

  /** What every log file satisfies, readable or not. */
  predicate Grown(f: Files, encode: Record -> string) {
    && Torn(f) && |f.events| <= MAX_EVENT_COUNT
    && EncodedBytes(Frame(Texts(f.events, encode))) <= MAX_EVENT_LOG_BYTES
    && forall i :: 0 <= i < |f.events| - 1 ==> f.events[i].status == InProgress
  }

  lemma AppendKeepsGrown(f: Files, encode: Record -> string, c: LogCall)
    requires Grown(f, encode) && Accepts(f, encode, c)
    ensures Grown(Stored(f, encode, c), encode)
  {
    var e := NextRecord(ReadConsistent(f, encode).value, c);
    assert Texts(f.events + [e], encode) == Texts(f.events, encode) + [encode(e)];
    assert Text(f, encode) == Frame(Texts(f.events, encode));
    FrameGrows(Texts(f.events, encode), encode(e));
    BytesAdd(Frame(Texts(f.events, encode)), encode(e) + "\n");
    BytesAdd(encode(e), "\n");
  }

  class Log {
    const encode: Record -> string
    const decode: string -> Option<Record>
    var files: Files
    /** How often a write may still fail or be cut short. */
    var faults: nat

    /** The first event, then the manifest; the directory is new. */
    constructor (
        encode: Record -> string, decode: string -> Option<Record>, id: nat, now: nat, payload: string, faults: nat)
      requires Codec(encode, decode)
      ensures faults == 0 && EncodedBytes(encode(Record(1, now, InProgress, Opened, payload))) + 1 <= MAX_EVENT_BYTES ==>
                files == Files(Some(NewOperation(id, true, now)), [Record(1, now, InProgress, Opened, payload)], "", false)
      ensures Grown(files, encode) && this.encode == encode && this.decode == decode
      ensures || ReadConsistent(files, encode) == None
              || files == Files(Some(NewOperation(id, true, now)), [Record(1, now, InProgress, Opened, payload)], "", false)
    {
      this.encode, this.decode := encode, decode;
      files, this.faults := Files(None, [], "", false), faults;
      new;
      var first := Record(1, now, InProgress, Opened, payload);
      assert Texts([], encode) == [];
      if EncodedBytes(encode(first)) + 1 <= MAX_EVENT_BYTES {
        assert Texts([first], encode) == [encode(first)];
        assert Frame([encode(first)]) == encode(first) + "\n" by { assert [encode(first)][1..] == []; }
        BytesAdd(encode(first), "\n");
        assert [] + [first] == [first];
        var appended := AppendRecord(first);
        if appended {
          var _ := ReplaceManifest(NewOperation(id, true, now));
        }
      }
    }

    /** One `write` of the whole record; it may be short, or fail before or after reaching the file. */
    method AppendRecord(e: Record) returns (ok: bool)
      requires Codec(encode, decode) && files.partial == ""
      modifies this
      ensures faults <= old(faults) && (ok || faults < old(faults))
      ensures || files == old(files) || files == old(files).(events := old(files).events + [e])
              || (files == old(files).(partial := files.partial) && files.partial != "" && Torn(files))
      ensures ok ==> files == old(files).(events := old(files).events + [e])
    {
      if {
        case faults > 0 => faults := faults - 1; return false;
        case faults > 0 =>
          var written: nat :| 0 < written <= |encode(e)|;
          assert JsonText(encode(e));
          faults, files := faults - 1, files.(partial := encode(e)[..written]);
          return false;
        case true =>
      }
      files := files.(events := files.events + [e]);
      if { case faults > 0 => faults := faults - 1; return false; case true => }
      ok := true;
    }

    /** Temporary file, then an atomic replacement, then a directory sync. */
    method ReplaceManifest(m: Operation) returns (ok: bool)
      requires !files.leftover
      modifies this
      ensures faults <= old(faults) && (ok || faults < old(faults))
      ensures files in {old(files), old(files).(leftover := true), old(files).(manifest := Some(m))}
      ensures ok ==> files == old(files).(manifest := Some(m))
    {
      files := files.(leftover := true);
      if {
        case faults > 0 =>                               // cut short, or the clean-up failed too
          faults := faults - 1;
          return false;
        case faults > 0 =>
          faults, files := faults - 1, files.(leftover := false);
          return false;
        case true =>
      }
      files := files.(leftover := false, manifest := Some(m));
      if { case faults > 0 => faults := faults - 1; return false; case true => }
      ok := true;
    }

    /**
      One call, interrupted anywhere. The two files are then exactly as before,
      exactly as after, or in a state that every later read rejects.
    */
    method Perform(c: LogCall) returns (outcome: Outcome)
      requires Codec(encode, decode) && Grown(files, encode)
      modifies this
      ensures Grown(files, encode) && old(files).events <= files.events
      ensures outcome == Refused <==> !Accepts(old(files), encode, c)
      ensures outcome == Refused ==> files == old(files)
      ensures outcome == Completed ==> files == Stored(old(files), encode, c)
      ensures || files == old(files)
              || (Accepts(old(files), encode, c) && files == Stored(old(files), encode, c))
              || ReadConsistent(files, encode) == None
      ensures outcome == Completed && c.call.Append? ==>
                Whole(encode(NextRecord(ReadConsistent(old(files), encode).value, c)))
      ensures old(faults) == 0 && Accepts(old(files), encode, c) ==>
                && files == Stored(old(files), encode, c)
                && (outcome == Completed <==>
                      (c.call.Append? ==> Whole(encode(NextRecord(ReadConsistent(old(files), encode).value, c)))))
    {
      TextReadsAsRecords(files, encode, decode);
      var events := ReadEvents(Text(files, encode), decode);
      if events == None || !Accepts(files, encode, c) { return Refused; }
      AppendKeepsGrown(files, encode, c);
      var current := ReadConsistent(files, encode).value;
      var appended := AppendRecord(NextRecord(current, c));
      if !appended { return Interrupted; }
      var replaced := ReplaceManifest(NextOperation(current, c.call));
      if !replaced { return Interrupted; }
      if c.call.Append? && !Whole(encode(NextRecord(current, c))) { return Interrupted; } // the event is read back
      outcome := Completed;
    }

    /**
      Any number of calls, each interrupted anywhere. The trail only grows by
      appending, nothing follows a terminal event, the bounds hold, and a log that
      reads as inconsistent, terminal or full never changes again.
    */
    method AnyRun(calls: seq<LogCall>)
      requires Codec(encode, decode) && Grown(files, encode)
      modifies this
      ensures Grown(files, encode) && old(files).events <= files.events
      ensures Frozen(old(files), encode) ==> files == old(files)
    {
      for i := 0 to |calls|
        invariant Grown(files, encode) && old(files).events <= files.events
        invariant Frozen(old(files), encode) ==> files == old(files)
      {
        var _ := Perform(calls[i]);
      }
    }
  }

  /** Inconsistent, terminal or full. */
  predicate Frozen(f: Files, encode: Record -> string) {
    || ReadConsistent(f, encode) == None || ReadConsistent(f, encode).value.status != InProgress
    || |f.events| == MAX_EVENT_COUNT
  }

  /** A manifest the reader returns agrees with its trail, and only the last event may be terminal. */
  lemma AcceptedManifestAgrees(f: Files, encode: Record -> string)
    requires Grown(f, encode) && ReadConsistent(f, encode).Some?
    ensures var m := ReadConsistent(f, encode).value;
            && f.manifest == Some(m) && ValidOperation(m) && !f.leftover && f.partial == ""
            && m.lastSequence == |f.events| >= 1
            && f.events[|f.events| - 1].stage == m.stage && f.events[|f.events| - 1].timestamp == m.updatedAt
            && (forall i :: 0 <= i < |f.events| ==> f.events[i].sequence == i + 1)
            && (forall i, j :: 0 <= i <= j < |f.events| ==> f.events[i].timestamp <= f.events[j].timestamp <= m.updatedAt)
            && (forall i :: 0 <= i < |f.events| ==>
                  f.events[i].status == if i == |f.events| - 1 then m.status else InProgress)
  {
    forall i, j | 0 <= i <= j < |f.events| ensures f.events[i].timestamp <= f.events[j].timestamp {
      TimestampsRise(f, encode, i, j);
    }
    forall i | 0 <= i < |f.events|
      ensures f.events[i].sequence == i + 1 && f.events[i].timestamp <= ReadConsistent(f, encode).value.updatedAt
    {
      assert ReadableRecord(f.events, encode, i);
      TimestampsRise(f, encode, i, |f.events| - 1);
    }
  }

  /** What an accepted call stores reads back as that call left it, exactly if its record holds no raw separator. */
  lemma StoredReadsExactly(f: Files, encode: Record -> string, c: LogCall)
    requires Grown(f, encode) && Accepts(f, encode, c)
    ensures ReadConsistent(Stored(f, encode, c), encode).Some? <==>
              Whole(encode(NextRecord(ReadConsistent(f, encode).value, c)))
    ensures ReadConsistent(Stored(f, encode, c), encode).Some? ==>
              ReadConsistent(Stored(f, encode, c), encode)
              == Some(NextOperation(ReadConsistent(f, encode).value, c.call))
  {
    var m := ReadConsistent(f, encode).value;
    var e, after := NextRecord(m, c), Stored(f, encode, c);
    AppendKeepsGrown(f, encode, c);
    assert Text(after, encode) == Frame(Texts(after.events, encode));
    assert ReadableRecord(after.events, encode, |f.events|) <==> Whole(encode(e));
    forall i | 0 <= i < |f.events| ensures ReadableRecord(after.events, encode, i) {
      assert ReadableRecord(f.events, encode, i);
    }
  }

  lemma {:induction false} TimestampsRise(f: Files, encode: Record -> string, i: nat, j: nat)
    requires ReadableLog(f, encode) && i <= j < |f.events|
    ensures f.events[i].timestamp <= f.events[j].timestamp
    decreases j - i
  {
    if i == j {
    } else {
      assert ReadableRecord(f.events, encode, j);
      TimestampsRise(f, encode, i, j - 1);
    }
  }

  /** An accepted call whose record holds a raw line separator is stored, and locks its operation for good. */
  lemma RawSeparatorLocksTheLog(f: Files, encode: Record -> string, c: LogCall, later: LogCall)
    requires Accepts(f, encode, c) && !Whole(encode(NextRecord(ReadConsistent(f, encode).value, c)))
    ensures ReadConsistent(Stored(f, encode, c), encode) == None && !Accepts(Stored(f, encode, c), encode, later)
  {
    var events := Stored(f, encode, c).events;
    assert !ReadableRecord(events, encode, |events| - 1);
  }
}

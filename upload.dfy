/** getFilesFromMessage: the multipart ingestor, driven by the parser's
    events. It collects form fields (last value wins), registers each file
    part under its field as soon as the part starts, appends the part's
    record when the part's stream closes, and settles a one-shot outcome on
    the parser's `close` or `error`. */
module Upload {
  import opened Wrappers
  import opened HttpErrors

  /** `new UploadedFile(filepath, filename, mimeType)` */
  datatype UploadedFile = UploadedFile(filepath: string, filename: string, mimeType: string)

  /** A file part the parser has announced: its field and the record its
      close appends. */
  datatype Part = Part(field: string, file: UploadedFile)

  /** What the multipart parser emits. `FileClose(n)` is the close of the
      n-th file part announced (counting from 0); `uuid` is the value
      `randomUUID()` produced for that part. */
  datatype Event =
    | Field(name: string, value: string)
    | FileStart(field: string, filename: string, mimeType: string, uuid: string)
    | FileClose(part: nat)
    | Close
    | Error(cause: NativeError)

  /** `tmpdir()` and `options.prefix`. */
  datatype Config = Config(tempDir: string, prefix: Option<string>)

  /** The ingestor's state: the result record (`fields`, `files`), the file
      parts announced so far, the order in which they closed, the outcome. */
  datatype Ingest = Ingest(
    fields: map<string, string>,
    files: map<string, seq<UploadedFile>>,
    parts: seq<Part>,
    closed: seq<nat>,
    outcome: Outcome)

  function Initial(): Ingest {
    Ingest(map[], map[], [], [], Pending)
  }

  /** `join(tmpdir(), `${options.prefix ?? 'file'}-${randomUUID()}`)` */
  function TempPath(config: Config, uuid: string): (r: string)
    ensures config.tempDir + "/" <= r
    ensures r[|config.tempDir| + 1..] == config.prefix.GetOr("file") + "-" + uuid
  {
    var r := config.tempDir + "/" + config.prefix.GetOr("file") + "-" + uuid;
    assert r[|config.tempDir| + 1..] == config.prefix.GetOr("file") + "-" + uuid;
    r
  }

  /** The rejection on a parser error. */
  function UploadError(cause: NativeError): (e: HttpError)
    ensures e.status == 500 && e.body == "Cannot upload files."
    ensures e.message == cause.message && e.cause == Some(cause)
    ensures e.code == Some("HTTP_FILE-" + Interpolate(cause.code))
  {
    FromNative(500, "Cannot upload files.", cause)
  }

  predicate ClosedInRange(parts: seq<Part>, closed: seq<nat>) {
    forall k :: 0 <= k < |closed| ==> closed[k] < |parts|
  }

  /** The records of the closed parts of `field`, in close order. */
  function ClosedFiles(parts: seq<Part>, closed: seq<nat>, field: string): seq<UploadedFile>
    requires ClosedInRange(parts, closed)
  {
    if closed == [] then []
    else
      var last := parts[closed[|closed| - 1]];
      ClosedFiles(parts, closed[..|closed| - 1], field) + (if last.field == field then [last.file] else [])
  }

  /** What the handlers keep true: every part closes at most once; the
      file lists exist for exactly the fields that had a file part; each
      list holds the records of that field's closed parts in close order. */
  ghost predicate Inv(s: Ingest) {
    && ClosedInRange(s.parts, s.closed)
    && (forall k, m :: 0 <= k < m < |s.closed| ==> s.closed[k] != s.closed[m])
    && (forall f :: f in s.files <==> exists k :: 0 <= k < |s.parts| && s.parts[k].field == f)
    && (forall f :: f in s.files ==> s.files[f] == ClosedFiles(s.parts, s.closed, f))
  }

  lemma {:induction false} ClosedFilesGrowParts(parts: seq<Part>, p: Part, closed: seq<nat>, field: string)
    requires ClosedInRange(parts, closed)
    ensures ClosedInRange(parts + [p], closed)
    ensures ClosedFiles(parts + [p], closed, field) == ClosedFiles(parts, closed, field)
    decreases |closed|
  {
    if closed != [] {
      ClosedFilesGrowParts(parts, p, closed[..|closed| - 1], field);
    }
  }

  lemma ClosedFilesGrowClosed(parts: seq<Part>, closed: seq<nat>, n: nat, field: string)
    requires ClosedInRange(parts, closed) && n < |parts|
    ensures ClosedInRange(parts, closed + [n])
    ensures ClosedFiles(parts, closed + [n], field)
            == ClosedFiles(parts, closed, field) + (if parts[n].field == field then [parts[n].file] else [])
  {
    assert (closed + [n])[..|closed|] == closed;
  }

  function Settle(s: Ingest, o: Outcome): Ingest {
    if s.outcome.Pending? then s.(outcome := o) else s
  }

  /** The records listed under `field` so far (`result.files[field]`). */
  function FilesOf(s: Ingest, field: string): seq<UploadedFile> {
    if field in s.files then s.files[field] else []
  }

  /** One parser event, handled as getFilesFromMessage's listeners handle it. */
  function Step(config: Config, s: Ingest, e: Event): (r: Ingest)
    ensures s.parts <= r.parts && s.closed <= r.closed
    ensures !s.outcome.Pending? ==> r.outcome == s.outcome
    ensures e.Field? ==> r == s.(fields := s.fields[e.name := e.value])
    ensures !e.Field? ==> r.fields == s.fields
    ensures e.Close? || e.Error? ==> r.(outcome := s.outcome) == s
    ensures e.FileStart? ==> |r.parts| == |s.parts| + 1 && r.closed == s.closed
    ensures !e.FileStart? ==> r.parts == s.parts
    ensures e.FileClose? ==> r.closed == s.closed || r.closed == s.closed + [e.part]
  {
    match e
    case Field(name, value) =>
      s.(fields := s.fields[name := value])
    case FileStart(field, filename, mimeType, uuid) =>
      var part := Part(field, UploadedFile(TempPath(config, uuid), filename, mimeType));
      s.(files := if field in s.files then s.files else s.files[field := []],
         parts := s.parts + [part])
    case FileClose(n) =>
      if n < |s.parts| && n !in s.closed then
        var p := s.parts[n];
        s.(files := s.files[p.field := FilesOf(s, p.field) + [p.file]], closed := s.closed + [n])
      else
        s
    case Close =>
      Settle(s, Resolved)
    case Error(cause) =>
      Settle(s, Rejected(UploadError(cause)))
  }

  /** Every listener keeps the invariant. */
  lemma StepKeepsInv(config: Config, s: Ingest, e: Event)
    requires Inv(s)
    ensures Inv(Step(config, s, e))
  {
    match e
    case FileStart(field, filename, mimeType, uuid) =>
      FileStartKeepsInv(config, s, e);
    case FileClose(n) =>
      FileCloseKeepsInv(config, s, e);
    case _ =>
  }

  lemma FileStartKeepsInv(config: Config, s: Ingest, e: Event)
    requires Inv(s) && e.FileStart?
    ensures Inv(Step(config, s, e))
  {
    var r := Step(config, s, e);
    var part := PartOf(config, e);
    assert r.parts == s.parts + [part];
    forall f ensures ClosedFiles(r.parts, r.closed, f) == ClosedFiles(s.parts, s.closed, f) {
      ClosedFilesGrowParts(s.parts, part, s.closed, f);
    }
    assert r.parts[|s.parts|].field == e.field;
    assert forall k :: 0 <= k < |s.parts| ==> r.parts[k] == s.parts[k];
    if e.field !in s.files {
      NoClosedFilesFor(s.parts, s.closed, e.field);
    }
  }

  lemma FileCloseKeepsInv(config: Config, s: Ingest, e: Event)
    requires Inv(s) && e.FileClose?
    ensures Inv(Step(config, s, e))
  {
    var r := Step(config, s, e);
    var n := e.part;
    if n < |s.parts| && n !in s.closed {
      var p := s.parts[n];
      assert p.field in s.files;
      forall f ensures ClosedFiles(r.parts, r.closed, f)
             == ClosedFiles(s.parts, s.closed, f) + (if p.field == f then [p.file] else []) {
        ClosedFilesGrowClosed(s.parts, s.closed, n, f);
      }
    }
  }

  /** A field that no announced part belongs to has no closed files. */
  lemma {:induction false} NoClosedFilesFor(parts: seq<Part>, closed: seq<nat>, field: string)
    requires ClosedInRange(parts, closed)
    requires forall k :: 0 <= k < |parts| ==> parts[k].field != field
    ensures ClosedFiles(parts, closed, field) == []
    decreases |closed|
  {
    if closed != [] {
      NoClosedFilesFor(parts, closed[..|closed| - 1], field);
    }
  }

  /** The state after a sequence of events, handled one by one. */
  function Run(config: Config, s: Ingest, events: seq<Event>): Ingest
    decreases |events|
  {
    if events == [] then s
    else Step(config, Run(config, s, events[..|events| - 1]), events[|events| - 1])
  }

  /** The invariant holds after any sequence of events: each part closes
      at most once, and every file list holds exactly its field's closed
      parts, in close order. */
  lemma {:induction false} RunKeepsInv(config: Config, s: Ingest, events: seq<Event>)
    requires Inv(s)
    ensures Inv(Run(config, s, events))
    decreases |events|
  {
    if events != [] {
      RunKeepsInv(config, s, events[..|events| - 1]);
      StepKeepsInv(config, Run(config, s, events[..|events| - 1]), events[|events| - 1]);
    }
  }

  predicate IsFieldOf(e: Event, name: string) {
    e.Field? && e.name == name
  }

  /** A field is present exactly when the parser sent it. */
  lemma {:induction false} FieldPresentIffSent(config: Config, events: seq<Event>, name: string)
    ensures name in Run(config, Initial(), events).fields
            <==> exists k :: 0 <= k < |events| && IsFieldOf(events[k], name)
    decreases |events|
  {
    if events != [] {
      var prefix := events[..|events| - 1];
      var e := events[|events| - 1];
      FieldPresentIffSent(config, prefix, name);
      var before := Run(config, Initial(), prefix);
      assert Run(config, Initial(), events) == Step(config, before, e);
      assert forall k :: 0 <= k < |prefix| ==> prefix[k] == events[k];
    }
  }

  /** Last write wins: a present field holds the value of the last event
      for that name. */
  lemma {:induction false} FieldsHoldLastValue(config: Config, events: seq<Event>, name: string)
    ensures var r := Run(config, Initial(), events);
      name in r.fields ==>
        exists k :: 0 <= k < |events| && events[k] == Field(name, r.fields[name])
                    && forall m :: k < m < |events| ==> !IsFieldOf(events[m], name)
    decreases |events|
  {
    if events != [] {
      var prefix := events[..|events| - 1];
      var e := events[|events| - 1];
      var before := Run(config, Initial(), prefix);
      var r := Run(config, Initial(), events);
      assert r == Step(config, before, e);
      if IsFieldOf(e, name) {
        assert events[|events| - 1] == Field(name, r.fields[name]);
      } else if name in r.fields {
        FieldsHoldLastValue(config, prefix, name);
        assert r.fields[name] == before.fields[name];
        var k :| 0 <= k < |prefix| && prefix[k] == Field(name, before.fields[name])
                 && forall m :: k < m < |prefix| ==> !IsFieldOf(prefix[m], name);
        assert events[k] == prefix[k];
        assert forall m :: k < m < |events| ==> !IsFieldOf(events[m], name) by {
          forall m | k < m < |events| ensures !IsFieldOf(events[m], name) {
            if m < |prefix| {
              assert events[m] == prefix[m];
            }
          }
        }
      }
    }
  }

  /** The part announced by a file-start event. */
  function PartOf(config: Config, e: Event): Part
    requires e.FileStart?
  {
    Part(e.field, UploadedFile(TempPath(config, e.uuid), e.filename, e.mimeType))
  }

  /** The parts of the file-start events, in arrival order. */
  function Announced(config: Config, events: seq<Event>): seq<Part> {
    if events == [] then []
    else (if events[0].FileStart? then [PartOf(config, events[0])] else []) + Announced(config, events[1..])
  }

  lemma {:induction false} AnnouncedSnoc(config: Config, events: seq<Event>, e: Event)
    ensures Announced(config, events + [e]) == Announced(config, events) + (if e.FileStart? then [PartOf(config, e)] else [])
    decreases |events|
  {
    if events == [] {
      assert [] + [e] == [e];
    } else {
      assert (events + [e])[1..] == events[1..] + [e];
      AnnouncedSnoc(config, events[1..], e);
    }
  }

  /** Every file part gets a record under the temporary directory, with the
      part's own file name and type, in the order the parts arrived. */
  lemma {:induction false} PartsInArrivalOrder(config: Config, events: seq<Event>)
    ensures Run(config, Initial(), events).parts == Announced(config, events)
    decreases |events|
  {
    if events != [] {
      var prefix := events[..|events| - 1];
      PartsInArrivalOrder(config, prefix);
      AnnouncedSnoc(config, prefix, events[|events| - 1]);
      assert prefix + [events[|events| - 1]] == events;
    }
  }

  predicate StartsFileOf(e: Event, field: string) {
    e.FileStart? && e.field == field
  }

  /** A field has an announced part exactly when a file start names it. */
  lemma AnnouncedFields(config: Config, events: seq<Event>, field: string)
    ensures (exists k :: 0 <= k < |Announced(config, events)| && Announced(config, events)[k].field == field)
            <==> exists k :: 0 <= k < |events| && StartsFileOf(events[k], field)
  {
    if exists k :: 0 <= k < |events| && StartsFileOf(events[k], field) {
      StartedIsAnnounced(config, events, field);
    }
    if exists k :: 0 <= k < |Announced(config, events)| && Announced(config, events)[k].field == field {
      AnnouncedIsStarted(config, events, field);
    }
  }

  lemma {:induction false} StartedIsAnnounced(config: Config, events: seq<Event>, field: string)
    requires exists k :: 0 <= k < |events| && StartsFileOf(events[k], field)
    ensures exists k :: 0 <= k < |Announced(config, events)| && Announced(config, events)[k].field == field
    decreases |events|
  {
    var head := if events[0].FileStart? then [PartOf(config, events[0])] else [];
    var a := Announced(config, events);
    var tail := Announced(config, events[1..]);
    assert a == head + tail;
    var k :| 0 <= k < |events| && StartsFileOf(events[k], field);
    if k == 0 {
      assert a[0].field == field;
    } else {
      assert StartsFileOf(events[1..][k - 1], field);
      StartedIsAnnounced(config, events[1..], field);
      var m :| 0 <= m < |tail| && tail[m].field == field;
      assert a[|head| + m].field == field;
    }
  }

  lemma {:induction false} AnnouncedIsStarted(config: Config, events: seq<Event>, field: string)
    requires exists k :: 0 <= k < |Announced(config, events)| && Announced(config, events)[k].field == field
    ensures exists k :: 0 <= k < |events| && StartsFileOf(events[k], field)
    decreases |events|
  {
    var head := if events[0].FileStart? then [PartOf(config, events[0])] else [];
    var a := Announced(config, events);
    var tail := Announced(config, events[1..]);
    assert a == head + tail;
    var k :| 0 <= k < |a| && a[k].field == field;
    if k < |head| {
      assert StartsFileOf(events[0], field);
    } else {
      assert tail[k - |head|].field == field;
      AnnouncedIsStarted(config, events[1..], field);
      var m :| 0 <= m < |events[1..]| && StartsFileOf(events[1..][m], field);
      assert StartsFileOf(events[m + 1], field);
    }
  }

  /** `result.files[field]` exists exactly when a file part of `field` has
      started, whether or not any part of it has closed. */
  lemma FileListIffStarted(config: Config, events: seq<Event>, field: string)
    ensures field in Run(config, Initial(), events).files
            <==> exists k :: 0 <= k < |events| && StartsFileOf(events[k], field)
  {
    RunKeepsInv(config, Initial(), events);
    PartsInArrivalOrder(config, events);
    AnnouncedFields(config, events, field);
  }

  /** How many file parts the events announce. */
  function Starts(events: seq<Event>): nat
    decreases |events|
  {
    if events == [] then 0
    else Starts(events[..|events| - 1]) + (if events[|events| - 1].FileStart? then 1 else 0)
  }

  /** The closes that take effect, read off the events alone: a close counts
      when its part has been announced before it and no earlier close of
      that part counted. */
  function ValidCloses(events: seq<Event>): seq<nat>
    decreases |events|
  {
    if events == [] then []
    else
      var prev := ValidCloses(events[..|events| - 1]);
      match events[|events| - 1]
      case FileClose(n) =>
        if n < Starts(events[..|events| - 1]) && n !in prev then prev + [n] else prev
      case _ => prev
  }

  /** The close order the ingestor records is exactly the effective closes
      of the events, and it has announced one part per file start. */
  lemma {:induction false} ClosedAreValidCloses(config: Config, events: seq<Event>)
    ensures Run(config, Initial(), events).closed == ValidCloses(events)
    ensures |Run(config, Initial(), events).parts| == Starts(events)
    decreases |events|
  {
    if events != [] {
      ClosedAreValidCloses(config, events[..|events| - 1]);
    }
  }

  /** Every effective close is a close event of a part announced before it. */
  lemma {:induction false} ValidClosesAreCloseEvents(events: seq<Event>)
    ensures forall k :: 0 <= k < |ValidCloses(events)| ==>
              exists i :: 0 <= i < |events| && events[i] == FileClose(ValidCloses(events)[k])
                          && ValidCloses(events)[k] < Starts(events[..i])
    decreases |events|
  {
    if events != [] {
      var init := events[..|events| - 1];
      ValidClosesAreCloseEvents(init);
      var prev := ValidCloses(init);
      var v := ValidCloses(events);
      assert forall i :: 0 <= i < |init| ==> events[i] == init[i] && events[..i] == init[..i];
      forall k | 0 <= k < |ValidCloses(events)|
        ensures exists i :: 0 <= i < |events| && events[i] == FileClose(ValidCloses(events)[k])
                            && ValidCloses(events)[k] < Starts(events[..i])
      {
        if k < |prev| {
          assert v[k] == prev[k];
          var i :| 0 <= i < |init| && init[i] == FileClose(prev[k]) && prev[k] < Starts(init[..i]);
          assert events[i] == FileClose(v[k]) && v[k] < Starts(events[..i]);
        } else {
          assert events[..|events| - 1] == init;
          assert events[|events| - 1] == FileClose(v[k]);
        }
      }
    } else {
      assert ValidCloses(events) == [];
    }
  }

  predicate IsTerminal(e: Event) {
    e.Close? || e.Error?
  }

  /** The first `close` or `error` event, if any. */
  function FirstTerminal(events: seq<Event>): (r: Option<Event>)
    ensures r.Some? ==> IsTerminal(r.value) && r.value in events
  {
    if events == [] then None
    else if IsTerminal(events[0]) then Some(events[0])
    else FirstTerminal(events[1..])
  }

  function OutcomeOf(t: Option<Event>): Outcome {
    match t
    case Some(Error(cause)) => Rejected(UploadError(cause))
    case Some(_) => Resolved
    case None => Pending
  }

  lemma {:induction false} FirstTerminalSnoc(events: seq<Event>, e: Event)
    ensures FirstTerminal(events + [e]) ==
      if FirstTerminal(events).Some? then FirstTerminal(events)
      else if IsTerminal(e) then Some(e) else None
    decreases |events|
  {
    if events == [] {
      assert [] + [e] == [e];
    } else {
      assert (events + [e])[1..] == events[1..] + [e];
      FirstTerminalSnoc(events[1..], e);
    }
  }

  /** The promise settles once, on the first `close` (resolved with the
      result record) or `error` (rejected with UploadError); later terminal
      events change nothing, and without one it stays pending. */
  lemma {:induction false} OutcomeIsFirstTerminal(config: Config, events: seq<Event>)
    ensures Run(config, Initial(), events).outcome == OutcomeOf(FirstTerminal(events))
    decreases |events|
  {
    if events != [] {
      var prefix := events[..|events| - 1];
      var e := events[|events| - 1];
      OutcomeIsFirstTerminal(config, prefix);
      FirstTerminalSnoc(prefix, e);
      assert prefix + [e] == events;
    }
  }

  lemma RunSnoc(config: Config, s: Ingest, events: seq<Event>, e: Event)
    ensures Run(config, s, events + [e]) == Step(config, Run(config, s, events), e)
  {
    assert (events + [e])[..|events|] == events;
  }

  /** Four events run one step after another. */
  lemma RunFour(c: Config, e1: Event, e2: Event, e3: Event, e4: Event)
    ensures Run(c, Initial(), [e1, e2, e3, e4]) == Step(c, Step(c, Step(c, Step(c, Initial(), e1), e2), e3), e4)
  {
    RunSnoc(c, Initial(), [], e1);
    RunSnoc(c, Initial(), [e1], e2);
    RunSnoc(c, Initial(), [e1, e2], e3);
    RunSnoc(c, Initial(), [e1, e2, e3], e4);
    assert [] + [e1] == [e1] && [e1] + [e2] == [e1, e2] && [e1, e2] + [e3] == [e1, e2, e3];
    assert [e1, e2, e3] + [e4] == [e1, e2, e3, e4];
  }

  /** One field and one PNG part under `picture`, then `close`: the result
      holds the field, one record at `/path/file-12345`, and is resolved. */
  lemma UploadScenario()
    ensures var r := Run(Config("/path", None), Initial(),
                         [FileStart("picture", "photo.png", "image/png", "12345"), FileClose(0),
                          Field("username", "stone"), Close]);
      && r.fields == map["username" := "stone"]
      && r.files == map["picture" := [UploadedFile("/path/file-12345", "photo.png", "image/png")]]
      && r.outcome == Resolved
  {
    var c := Config("/path", None);
    var f := UploadedFile("/path/file-12345", "photo.png", "image/png");
    var e1, e2, e3, e4 := FileStart("picture", "photo.png", "image/png", "12345"), FileClose(0), Field("username", "stone"), Close;
    assert TempPath(c, "12345") == "/path/file-12345";
    var s1 := Ingest(map[], map["picture" := []], [Part("picture", f)], [], Pending);
    assert Step(c, Initial(), e1) == s1;
    var s2 := s1.(files := map["picture" := [f]], closed := [0]);
    assert FilesOf(s1, "picture") + [f] == [f];
    assert Step(c, s1, e2) == s2;
    var s3 := s2.(fields := map["username" := "stone"]);
    assert Step(c, s2, e3) == s3;
    assert Step(c, s3, e4) == s3.(outcome := Resolved);
    RunFour(c, e1, e2, e3, e4);
  }

  /** A parser `error` with message `error` and no code rejects with the
      upload failure, its message, and the code rendered as `undefined`. */
  lemma UploadErrorScenario(c: Config)
    ensures Run(c, Initial(), [Error(NativeError("error", None))]).outcome
            == Rejected(HttpError(500, "Cannot upload files.", "error", Some("HTTP_FILE-undefined"),
                                  Some(NativeError("error", None))))
  {
    assert [Error(NativeError("error", None))][..0] == [];
    assert FileErrorCode(None) == "HTTP_FILE-undefined";
  }

  /** Records follow close order, not start order: two parts of one field
      that close in reverse are listed in reverse. */
  lemma CloseOrderScenario(c: Config)
    ensures var r := Run(c, Initial(),
                         [FileStart("a", "x", "t", "1"), FileStart("a", "y", "t", "2"), FileClose(1), FileClose(0)]);
      && r.files == map["a" := [UploadedFile(TempPath(c, "2"), "y", "t"), UploadedFile(TempPath(c, "1"), "x", "t")]]
      && r.outcome == Pending
  {
    var x := UploadedFile(TempPath(c, "1"), "x", "t");
    var y := UploadedFile(TempPath(c, "2"), "y", "t");
    var e1, e2, e3, e4 := FileStart("a", "x", "t", "1"), FileStart("a", "y", "t", "2"), FileClose(1), FileClose(0);
    var s1 := Ingest(map[], map["a" := []], [Part("a", x)], [], Pending);
    assert Step(c, Initial(), e1) == s1;
    var s2 := s1.(parts := [Part("a", x), Part("a", y)]);
    assert Step(c, s1, e2) == s2;
    var s3 := s2.(files := map["a" := [y]], closed := [1]);
    assert FilesOf(s2, "a") + [y] == [y];
    assert Step(c, s2, e3) == s3;
    var s4 := s3.(files := map["a" := [y, x]], closed := [1, 0]);
    assert FilesOf(s3, "a") + [x] == [y, x];
    assert Step(c, s3, e4) == s4;
    RunFour(c, e1, e2, e3, e4);
  }

  /** The ingestor object: the result record the listeners mutate in place,
      the parts announced, their close order and the promise's state. */
  class Ingestion {
    const config: Config
    var fields: map<string, string>
    var files: map<string, seq<UploadedFile>>
    var parts: seq<Part>
    var closed: seq<nat>
    var outcome: Outcome

    function State(): Ingest
      reads this
    {
      Ingest(fields, files, parts, closed, outcome)
    }

    ghost predicate Valid()
      reads this
    {
      Inv(State())
    }

    /** `{ files: {}, fields: {} }` and a pending promise. */
    constructor (config: Config)
      ensures Valid() && this.config == config && State() == Initial()
    {
      this.config := config;
      fields, files, parts, closed, outcome := map[], map[], [], [], Pending;
    }

    /** `result.fields[fieldname] = value` */
    method OnField(name: string, value: string)
      requires Valid()
      modifies this
      ensures Valid() && State() == Step(config, old(State()), Field(name, value))
    {
      StepKeepsInv(config, State(), Field(name, value));
      fields := fields[name := value];
    }

    /** `result.files[fieldname] ??= []`, then the part is registered with
      its temporary path. */
    method OnFileStart(field: string, filename: string, mimeType: string, uuid: string)
      requires Valid()
      modifies this
      ensures Valid() && State() == Step(config, old(State()), FileStart(field, filename, mimeType, uuid))
    {
      StepKeepsInv(config, State(), FileStart(field, filename, mimeType, uuid));
      if field !in files {
        files := files[field := []];
      }
      var filepath := TempPath(config, uuid);
      parts := parts + [Part(field, UploadedFile(filepath, filename, mimeType))];

    }

    /** The part's `close` listener: `result.files[fieldname].push(...)`. */
    method OnFileClose(n: nat)
      requires Valid()
      modifies this
      ensures Valid() && State() == Step(config, old(State()), FileClose(n))
    {
      StepKeepsInv(config, State(), FileClose(n));
      if n < |parts| && n !in closed {
        var p := parts[n];
        assert p.field in files;
        files := files[p.field := files[p.field] + [p.file]];
        closed := closed + [n];
      }
    }

    /** `resolve(result)`; a settled promise ignores it. */
    method OnClose()
      requires Valid()
      modifies this
      ensures Valid() && State() == Step(config, old(State()), Close)
    {
      StepKeepsInv(config, State(), Close);
      if outcome.Pending? {
        outcome := Resolved;
      }
    }

    /** `reject(getHttpError(500, 'Cannot upload files.', ...))`; a settled
      promise ignores it. */
    method OnError(cause: NativeError)
      requires Valid()
      modifies this
      ensures Valid() && State() == Step(config, old(State()), Error(cause))
    {
      StepKeepsInv(config, State(), Error(cause));
      if outcome.Pending? {
        outcome := Rejected(UploadError(cause));
      }
    }

    /** Delivers one parser event to its listener. */
    method Handle(e: Event)
      requires Valid()
      modifies this
      ensures Valid() && State() == Step(config, old(State()), e)
    {
      match e
      case Field(name, value) => OnField(name, value);
      case FileStart(field, filename, mimeType, uuid) => OnFileStart(field, filename, mimeType, uuid);
      case FileClose(n) => OnFileClose(n);
      case Close => OnClose();
      case Error(cause) => OnError(cause);
    }
  }
}

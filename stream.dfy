/** streamFile: sends a file as the response and settles one promise from
    the first of several racing signals — the sender's `error`,
    `directory` and `end`, and the response's finish, which is checked again
    on the next turn of the event loop to tell a completed transfer from an
    aborted one. */
module Streaming {
  import opened Wrappers
  import opened HttpErrors

  /** The signals the sender and the response emit, and the deferred check
      `setImmediate` schedules after an error-free finish. */
  datatype Event =
    | SendError(cause: NativeError)
    | Directory
    | Headers
    | Stream
    | File
    | End
    | Finished(error: Option<NativeError>)
    | Tick

  /** `streaming` (unset, true or false), whether the finish listener has
      run, whether its deferred check is still queued, the response's
      header map and the promise. */
  datatype Transfer = Transfer(
    streaming: Option<bool>,
    finished: bool,
    tickPending: bool,
    headers: map<string, string>,
    outcome: Outcome)

  function Initial(headers: map<string, string>): Transfer {
    Transfer(None, false, false, headers, Pending)
  }

  /** A sender or response failure. */
  function Unexpected(cause: NativeError): (e: HttpError)
    ensures e.status == 500 && e.body == "An unexpected error has occurred."
    ensures e.message == cause.message && e.cause == Some(cause)
    ensures e.code == Some("HTTP_FILE-" + Interpolate(cause.code))
  {
    FromNative(500, "An unexpected error has occurred.", cause)
  }

  /** The path names a directory. */
  function NotFound(): (e: HttpError)
    ensures e.status == 404 && e.body == "This file cannot be found."
    ensures e.message == "EISDIR, read" && e.code == Some("HTTP_FILE-EISDIR") && e.cause.None?
  {
    GetHttpError(404, "This file cannot be found.", "EISDIR, read", Some("HTTP_FILE-EISDIR"), None)
  }

  /** `onaborted`: the client went away before the transfer completed. */
  function Aborted(): (e: HttpError)
    ensures e.status == 400 && e.body == "Request aborted." && e.message == "Request aborted."
    ensures e.code == Some("HTTP_FILE-ECONNABORTED") && e.cause.None?
  {
    GetHttpError(400, "Request aborted.", "Request aborted.", Some("HTTP_FILE-ECONNABORTED"), None)
  }

  /** `resolve`/`reject`: only the first call has an effect. */
  function Settle(t: Transfer, o: Outcome): Transfer {
    if t.outcome.Pending? then t.(outcome := o) else t
  }

  /** `resp.setHeader(key, value)` for each entry, in order. */
  function SetHeaders(m: map<string, string>, entries: seq<(string, string)>): (r: map<string, string>)
    ensures m.Keys <= r.Keys
    ensures forall k :: 0 <= k < |entries| ==> entries[k].0 in r
    decreases |entries|
  {
    if entries == [] then m
    else
      var last := entries[|entries| - 1];
      SetHeaders(m, entries[..|entries| - 1])[last.0 := last.1]
  }

  predicate HasKey(entries: seq<(string, string)>, key: string) {
    exists k :: 0 <= k < |entries| && entries[k].0 == key
  }

  /** Copying headers keeps the other keys, and each copied key holds the
      value of its last entry. */
  lemma {:induction false} SetHeadersLastWins(m: map<string, string>, entries: seq<(string, string)>, key: string)
    ensures var r := SetHeaders(m, entries);
      && (key in r <==> key in m || HasKey(entries, key))
      && (!HasKey(entries, key) && key in m ==> r[key] == m[key])
      && (HasKey(entries, key) ==>
            exists k :: 0 <= k < |entries| && entries[k] == (key, r[key])
                        && forall j :: k < j < |entries| ==> entries[j].0 != key)
    decreases |entries|
  {
    if entries != [] {
      var init := entries[..|entries| - 1];
      var last := entries[|entries| - 1];
      SetHeadersLastWins(m, init, key);
      var r := SetHeaders(m, entries);
      assert forall k :: 0 <= k < |init| ==> init[k] == entries[k];
      if last.0 == key {
        assert entries[|entries| - 1] == (key, r[key]);
      } else {
        assert HasKey(entries, key) <==> HasKey(init, key) by {
          if HasKey(entries, key) {
            var k :| 0 <= k < |entries| && entries[k].0 == key;
            assert init[k].0 == key;
          }
        }
        if HasKey(init, key) {
          var k :| 0 <= k < |init| && init[k] == (key, r[key])
                   && forall j :: k < j < |init| ==> init[j].0 != key;
          assert entries[k] == (key, r[key]);
        }
      }
    }
  }

  /** What the response's finish listener does; it runs at most once. */
  function OnFinished(t: Transfer, error: Option<NativeError>): (r: Transfer)
    ensures t.finished ==> r == t
    ensures !t.finished ==> r.finished && r.streaming == t.streaming && r.headers == t.headers
    ensures !t.outcome.Pending? ==> r.outcome == t.outcome
    ensures !t.finished && error.None? ==> r.tickPending && r.outcome == t.outcome
    ensures !t.finished && error.Some? ==> r.tickPending == t.tickPending
    ensures !t.finished && t.outcome.Pending? && error.Some? ==>
              r.outcome == Rejected(if error.value.code == Some("ECONNRESET") then Aborted() else Unexpected(error.value))
  {
    if t.finished then t
    else
      var t := t.(finished := true);
      match error
      case Some(err) =>
        if err.code == Some("ECONNRESET") then Settle(t, Rejected(Aborted()))
        else Settle(t, Rejected(Unexpected(err)))
      case None => t.(tickPending := true)
  }

  /** One signal, handled as streamFile's listeners handle it. */
  function Step(extra: seq<(string, string)>, t: Transfer, e: Event): (r: Transfer)
    ensures !t.outcome.Pending? ==> r.outcome == t.outcome
    ensures t.finished ==> r.finished
    ensures !e.Finished? ==> r.finished == t.finished
    ensures r.tickPending ==> t.tickPending || e.Finished?
    ensures e.Headers? ==> r == t.(headers := SetHeaders(t.headers, extra))
    ensures !e.Headers? ==> r.headers == t.headers
    ensures e.Stream? || e.File? ==> r == t.(streaming := Some(e.Stream?))
    ensures !e.Stream? && !e.File? ==> r.streaming == t.streaming
    ensures t.outcome.Pending? && e.End? ==> r.outcome == Resolved
    ensures t.outcome.Pending? && e.SendError? ==> r.outcome == Rejected(Unexpected(e.cause))
    ensures t.outcome.Pending? && e.Directory? ==> r.outcome == Rejected(NotFound())
    ensures t.outcome.Pending? && e.Tick? && t.tickPending ==>
              !r.tickPending && r.outcome == (if t.streaming == Some(false) then Resolved else Rejected(Aborted()))
  {
    match e
    case SendError(cause) => Settle(t, Rejected(Unexpected(cause)))
    case Directory => Settle(t, Rejected(NotFound()))
    case Headers => t.(headers := SetHeaders(t.headers, extra))
    case Stream => t.(streaming := Some(true))
    case File => t.(streaming := Some(false))
    case End => Settle(t, Resolved)
    case Finished(error) => OnFinished(t, error)
    case Tick =>
      if t.tickPending then
        var t := t.(tickPending := false);
        if t.streaming != Some(false) then Settle(t, Rejected(Aborted())) else Settle(t, Resolved)
      else t
  }

  function Run(extra: seq<(string, string)>, t: Transfer, events: seq<Event>): Transfer
    decreases |events|
  {
    if events == [] then t
    else Step(extra, Run(extra, t, events[..|events| - 1]), events[|events| - 1])
  }

  lemma RunSnoc(extra: seq<(string, string)>, t: Transfer, events: seq<Event>, e: Event)
    ensures Run(extra, t, events + [e]) == Step(extra, Run(extra, t, events), e)
  {
    assert (events + [e])[..|events|] == events;
  }

  /** Once settled, a transfer's promise never changes again. */
  lemma {:induction false} SettledTransferIsFinal(extra: seq<(string, string)>, t: Transfer, events: seq<Event>)
    requires !t.outcome.Pending?
    ensures Run(extra, t, events).outcome == t.outcome
    decreases |events|
  {
    if events != [] {
      SettledTransferIsFinal(extra, t, events[..|events| - 1]);
    }
  }

  /** How many signals of the trace settle the promise (turn it from
      pending to resolved or rejected). */
  function Settlements(extra: seq<(string, string)>, t: Transfer, events: seq<Event>): nat
    decreases |events|
  {
    if events == [] then 0
    else
      var init := events[..|events| - 1];
      var before := Run(extra, t, init);
      var after := Step(extra, before, events[|events| - 1]);
      Settlements(extra, t, init) + (if before.outcome.Pending? && !after.outcome.Pending? then 1 else 0)
  }

  /** Exactly once: from a pending start, the promise is settled by exactly
      one signal if it ends up settled, and by none otherwise. */
  lemma {:induction false} SettlesExactlyOnce(extra: seq<(string, string)>, t: Transfer, events: seq<Event>)
    requires t.outcome.Pending?
    ensures Settlements(extra, t, events) == if Run(extra, t, events).outcome.Pending? then 0 else 1
    decreases |events|
  {
    if events != [] {
      var init := events[..|events| - 1];
      SettlesExactlyOnce(extra, t, init);
    }
  }

  /** The first settling signal decides: whatever follows a signal that
      settles the promise leaves the outcome it chose. */
  lemma FirstSettlementWins(extra: seq<(string, string)>, t: Transfer, events: seq<Event>, e: Event, later: seq<Event>)
    requires Run(extra, t, events).outcome.Pending?
    requires !Run(extra, t, events + [e]).outcome.Pending?
    ensures Run(extra, t, events + [e] + later).outcome == Step(extra, Run(extra, t, events), e).outcome
  {
    RunSnoc(extra, t, events, e);
    RunAppend(extra, t, events + [e], later);
    SettledTransferIsFinal(extra, Run(extra, t, events + [e]), later);
  }

  lemma {:induction false} RunAppend(extra: seq<(string, string)>, t: Transfer, a: seq<Event>, b: seq<Event>)
    ensures Run(extra, t, a + b) == Run(extra, Run(extra, t, a), b)
    decreases |b|
  {
    if b == [] {
      assert a + b == a;
    } else {
      assert (a + b)[..|a + b| - 1] == a + b[..|b| - 1];
      RunAppend(extra, t, a, b[..|b| - 1]);
    }
  }

  /** A directory request is a 404 however the transfer goes on, even when
      the sender later reports `end`. */
  lemma DirectoryBeatsLaterEnd(extra: seq<(string, string)>, headers: map<string, string>, later: seq<Event>)
    ensures Run(extra, Initial(headers), [Directory] + later).outcome == Rejected(NotFound())
  {
    RunAppend(extra, Initial(headers), [Directory], later);
    RunSnoc(extra, Initial(headers), [], Directory);
    assert [] + [Directory] == [Directory];
    SettledTransferIsFinal(extra, Run(extra, Initial(headers), [Directory]), later);
  }

  /** The deferred check after an error-free finish resolves exactly when
      the sender reported a plain file (`streaming === false`), and aborts
      when streaming was unset or true. */
  lemma TickDecides(extra: seq<(string, string)>, t: Transfer)
    requires t.outcome.Pending? && t.tickPending
    ensures Step(extra, t, Tick).outcome == Resolved <==> t.streaming == Some(false)
    ensures Step(extra, t, Tick).outcome != Resolved ==> Step(extra, t, Tick).outcome == Rejected(Aborted())
  {
  }

  /** The finish listener runs once and queues at most one check, and once
      that check has run the promise is settled: a finished response never
      leaves the promise pending. */
  ghost predicate Inv(t: Transfer) {
    && (t.tickPending ==> t.finished)
    && (t.finished && !t.tickPending ==> !t.outcome.Pending?)
  }

  lemma StepKeepsInv(extra: seq<(string, string)>, t: Transfer, e: Event)
    requires Inv(t)
    ensures Inv(Step(extra, t, e))
  {
  }

  lemma {:induction false} RunKeepsInv(extra: seq<(string, string)>, t: Transfer, events: seq<Event>)
    requires Inv(t)
    ensures Inv(Run(extra, t, events))
    decreases |events|
  {
    if events != [] {
      RunKeepsInv(extra, t, events[..|events| - 1]);
      StepKeepsInv(extra, Run(extra, t, events[..|events| - 1]), events[|events| - 1]);
    }
  }

  /** A finished response whose deferred check is not queued leaves no
      pending promise. */
  lemma NoHangAfterFinish(extra: seq<(string, string)>, headers: map<string, string>, events: seq<Event>)
    ensures var t := Run(extra, Initial(headers), events);
      t.finished && !t.tickPending ==> !t.outcome.Pending?
  {
    RunKeepsInv(extra, Initial(headers), events);
  }

  /** The traces of the sender and response the module's own tests drive:
      completion and aborts. */
  lemma StreamScenarios(extra: seq<(string, string)>, h: map<string, string>)
    ensures Run(extra, Initial(h), [End]).outcome == Resolved
    ensures Run(extra, Initial(h), [File, Finished(None), Tick]).outcome == Resolved
    ensures Run(extra, Initial(h), [Finished(None), Tick]).outcome == Rejected(Aborted())
    ensures Run(extra, Initial(h), [Stream, Finished(None), Tick]).outcome == Rejected(Aborted())
    ensures Run(extra, Initial(h), [Finished(Some(NativeError("error", Some("ECONNRESET"))))]).outcome
            == Rejected(Aborted())
  {
    assert [File, Finished(None), Tick][..2] == [File, Finished(None)] && [File, Finished(None)][..1] == [File];
    assert [Finished(None), Tick][..1] == [Finished(None)];
    assert [Stream, Finished(None), Tick][..2] == [Stream, Finished(None)] && [Stream, Finished(None)][..1] == [Stream];
  }

  /** The same tests' error traces: a finish error other than a reset, and
      a sender error, reject with a 500. */
  lemma StreamErrorScenarios(extra: seq<(string, string)>, h: map<string, string>)
    ensures Run(extra, Initial(h), [Finished(Some(NativeError("error", None)))]).outcome
            == Rejected(HttpError(500, "An unexpected error has occurred.", "error", Some("HTTP_FILE-undefined"),
                                  Some(NativeError("error", None))))
    ensures Run(extra, Initial(h), [SendError(NativeError("error", Some("error")))]).outcome
            == Rejected(HttpError(500, "An unexpected error has occurred.", "error", Some("HTTP_FILE-error"),
                                  Some(NativeError("error", Some("error")))))
  {
    assert FileErrorCode(None) == "HTTP_FILE-undefined";
    assert FileErrorCode(Some("error")) == "HTTP_FILE-error";
  }

  /** `headers`, `file`, `stream`, `end`: the configured headers are on the
      response and the promise resolves. */
  lemma HeadersScenario(h: map<string, string>)
    ensures var t := Run([("host", "host")], Initial(h), [Headers, File, Stream, End]);
      t.headers == h["host" := "host"] && t.outcome == Resolved
  {
    var extra := [("host", "host")];
    var es := [Headers, File, Stream, End];
    assert es[..3] == [Headers, File, Stream] && es[..3][..2] == [Headers, File] && es[..3][..2][..1] == [Headers];
    assert extra[..0] == [];
    var t1 := Run(extra, Initial(h), [Headers]);
    assert t1.headers == h["host" := "host"] && t1.outcome == Pending;
    var t3 := Run(extra, Initial(h), [Headers, File, Stream]);
    assert t3.headers == t1.headers && t3.outcome == Pending;
  }

  /** The response the file is piped to, with its header map. */
  class Response {
    var headers: map<string, string>

    constructor (headers: map<string, string>)
      ensures this.headers == headers
    {
      this.headers := headers;
    }

    /** `response.setHeader(name, value)` */
    method SetHeader(name: string, value: string)
      modifies this
      ensures headers == old(headers)[name := value]
    {
      headers := headers[name := value];
    }
  }

  /** One call of streamFile: the captured `streaming` variable, the finish
      listener's progress and the promise, over a response. */
  class FileStreamer {
    const response: Response
    /** `Object.entries(options.headers)` */
    const extra: seq<(string, string)>
    var streaming: Option<bool>
    var finished: bool
    var tickPending: bool
    var outcome: Outcome

    function State(): Transfer
      reads this, response
    {
      Transfer(streaming, finished, tickPending, response.headers, outcome)
    }

    ghost predicate Valid()
      reads this, response
    {
      Inv(State())
    }

    constructor (response: Response, extra: seq<(string, string)>)
      ensures this.response == response && this.extra == extra
      ensures Valid() && State() == Initial(response.headers)
    {
      this.response := response;
      this.extra := extra;
      streaming, finished, tickPending, outcome := None, false, false, Pending;
    }

    method SettleWith(o: Outcome)
      modifies this
      ensures State() == Settle(old(State()), o)
      ensures streaming == old(streaming) && finished == old(finished) && tickPending == old(tickPending)
    {
      if outcome.Pending? {
        outcome := o;
      }
    }

    /** The sender's `error`: reject with 500. */
    method OnSendError(cause: NativeError)
      requires Valid()
      modifies this
      ensures Valid() && State() == Step(extra, old(State()), SendError(cause))
    {
      StepKeepsInv(extra, State(), SendError(cause));
      SettleWith(Rejected(Unexpected(cause)));
    }

    /** The sender's `directory`: reject with 404. */
    method OnDirectory()
      requires Valid()
      modifies this
      ensures Valid() && State() == Step(extra, old(State()), Directory)
    {
      StepKeepsInv(extra, State(), Directory);
      SettleWith(Rejected(NotFound()));
    }

    /** The sender's `headers`: copy every configured header onto the
      response, in order. */
    method OnHeaders()
      requires Valid()
      modifies response
      ensures Valid() && State() == Step(extra, old(State()), Headers)
    {
      StepKeepsInv(extra, State(), Headers);
      var i := 0;
      while i < |extra|
        invariant 0 <= i <= |extra|
        invariant response.headers == SetHeaders(old(response.headers), extra[..i])
      {
        assert extra[..i + 1][..i] == extra[..i];
        response.SetHeader(extra[i].0, extra[i].1);
        i := i + 1;
      }
      assert extra[..|extra|] == extra;
    }

    /** The sender's `stream`: `streaming = true`. */
    method OnStream()
      requires Valid()
      modifies this
      ensures Valid() && State() == Step(extra, old(State()), Stream)
    {
      streaming := Some(true);
    }

    /** The sender's `file`: `streaming = false`. */
    method OnFile()
      requires Valid()
      modifies this
      ensures Valid() && State() == Step(extra, old(State()), File)
    {
      streaming := Some(false);
    }

    /** The sender's `end`: resolve. */
    method OnEnd()
      requires Valid()
      modifies this
      ensures Valid() && State() == Step(extra, old(State()), End)
    {
      StepKeepsInv(extra, State(), End);
      SettleWith(Resolved);
    }

    /** The response's finish listener: a reset aborts, another error is a
      500, and no error queues the deferred check. */
    method OnFinished(error: Option<NativeError>)
      requires Valid()
      modifies this
      ensures Valid() && State() == Step(extra, old(State()), Finished(error))
    {
      StepKeepsInv(extra, State(), Finished(error));
      if !finished {
        finished := true;
        match error
        case Some(err) =>
          if err.code == Some("ECONNRESET") {
            SettleWith(Rejected(Aborted()));
          } else {
            SettleWith(Rejected(Unexpected(err)));
          }
        case None =>
          tickPending := true;
      }
    }

    /** The deferred check: resolve when the sender served a plain file,
      abort otherwise. */
    method OnTick()
      requires Valid()
      modifies this
      ensures Valid() && State() == Step(extra, old(State()), Tick)
    {
      StepKeepsInv(extra, State(), Tick);
      if tickPending {
        tickPending := false;
        if streaming != Some(false) {
          SettleWith(Rejected(Aborted()));
        } else {
          SettleWith(Resolved);
        }
      }
    }

    /** Delivers one signal to its listener. */
    method Handle(e: Event)
      requires Valid()
      modifies this, response
      ensures Valid() && State() == Step(extra, old(State()), e)
    {
      match e
      case SendError(cause) => OnSendError(cause);
      case Directory => OnDirectory();
      case Headers => OnHeaders();
      case Stream => OnStream();
      case File => OnFile();
      case End => OnEnd();
      case Finished(error) => OnFinished(error);
      case Tick => OnTick();
    }
  }
}

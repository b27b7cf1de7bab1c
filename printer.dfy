/** The docker build-response interpreter of src/printer.js.

    `printResponse` subscribes to a response stream. Every `data` event carries
    one JSON message; the handler echoes `stream` text verbatim, echoes `status`
    text with a line break, and otherwise replaces the pending outcome `done`
    with a rejection. The promise settles only on `end`, after one more line
    break. Messages arrive here already parsed; stdout is the `output` string.

    JavaScript truthiness is modelled on strings: an absent or empty `stream`
    or `status` is the empty string, and `error` says whether the message's
    `error` field is truthy. `errorDetail` is the text of `errorDetail.message`,
    or None when the message has no `errorDetail` object. */
module Printer {
  import opened Optional

  datatype Message = Message(
    raw: string,                  // the chunk as received, quoted in the parse-error text
    stream: string,
    status: string,
    error: bool,
    errorDetail: Option<string>)

  /** The value of the mutable `done`: which callback `end` will run. */
  datatype Pending =
    | Resolve
    | RejectWithDetail(detail: Option<string>)   // reject(new CFError(json.errorDetail.message))
    | RejectUnparsed(raw: string)                // reject(new CFError(`Error when parsing ...`))

  /** How the promise returned by `printResponse` settled. */
  datatype Outcome = Resolved | Rejected(message: string)

  const ParseErrorPrefix: string := "Error when parsing the docker api response: \""

  /** A message that writes nothing and decides the pending outcome. */
  predicate Decisive(m: Message)
  {
    m.stream == "" && m.status == ""
  }

  /** What one `data` event writes to stdout. */
  function Echo(m: Message): string
  {
    if m.stream != "" then m.stream
    else if m.status != "" then m.status + "\n"
    else ""
  }

  /** The pending outcome after one `data` event. */
  function Step(done: Pending, m: Message): Pending
  {
    if !Decisive(m) then done
    else if m.error then RejectWithDetail(m.errorDetail)
    else RejectUnparsed(m.raw)
  }

  /** Running the pending callback: the rejection text, or None when reading
      `json.errorDetail.message` throws because `errorDetail` is missing. */
  function Settle(done: Pending): Option<Outcome>
  {
    match done
    case Resolve => Some(Resolved)
    case RejectWithDetail(detail) =>
      if detail.Some? then Some(Rejected(detail.value)) else None
    case RejectUnparsed(raw) => Some(Rejected(ParseErrorPrefix + raw + "\""))
  }

  /** Everything a sequence of `data` events writes. */
  function Written(messages: seq<Message>): string
  {
    if messages == [] then ""
    else Written(messages[..|messages| - 1]) + Echo(messages[|messages| - 1])
  }

  /** The pending outcome after a sequence of `data` events, starting from `resolve`. */
  function PendingAfter(messages: seq<Message>): Pending
  {
    if messages == [] then Resolve
    else Step(PendingAfter(messages[..|messages| - 1]), messages[|messages| - 1])
  }

  /** The state of one `printResponse` call: the stdout it produced, the pending
      callback, and the promise's settlement (None while pending). */
  class ResponsePrinter {
    var output: string
    var done: Pending
    var outcome: Option<Outcome>

    constructor ()
      ensures output == "" && done == Resolve && outcome == None
    {
      output := "";
      done := Resolve;
      outcome := None;
    }

    /** The `data` handler: never settles the promise. */
    method OnData(m: Message)
      modifies this
      ensures output == old(output) + Echo(m)
      ensures done == Step(old(done), m)
      ensures outcome == old(outcome)
    {
      if m.stream != "" {
        output := output + m.stream;
      } else if m.status != "" {
        output := output + m.status + "\n";
      } else if m.error {
        done := RejectWithDetail(m.errorDetail);
      } else {
        done := RejectUnparsed(m.raw);
      }
    }

    /** The `end` handler: writes one line break, then runs `done`. A promise
        settles once; running `done` again changes nothing. `threw` is set when
        `done` throws on a missing `errorDetail`, which leaves the promise pending. */
    method OnEnd() returns (threw: bool)
      modifies this
      ensures output == old(output) + "\n"
      ensures done == old(done)
      ensures threw <==> Settle(done).None?
      ensures outcome == if old(outcome).None? then Settle(done) else old(outcome)
    {
      output := output + "\n";
      var settled := Settle(done);
      threw := settled.None?;
      if outcome.None? {
        outcome := settled;
      }
    }
  }

  /** A whole response: every message as a `data` event, then `end`. */
  method PrintResponse(messages: seq<Message>) returns (output: string, outcome: Option<Outcome>)
    ensures output == Written(messages) + "\n"
    ensures outcome == Settle(PendingAfter(messages))
  {
    var printer := new ResponsePrinter();
    var i := 0;
    while i < |messages|
      invariant 0 <= i <= |messages|
      invariant printer.output == Written(messages[..i])
      invariant printer.done == PendingAfter(messages[..i])
      invariant printer.outcome == None
    {
      assert messages[..i + 1][..i] == messages[..i];
      printer.OnData(messages[i]);
      i := i + 1;
    }
    assert messages[..i] == messages;
    var _ := printer.OnEnd();
    output, outcome := printer.output, printer.outcome;
  }

  // ---------------------------------------------------------------------------
  // Properties
  // ---------------------------------------------------------------------------

  /** Dispatch priority: a non-empty `stream` is written verbatim and nothing
      else happens, whatever `status` or `error` the message also carries; a
      `status` alone is written with a line break. */
  lemma DispatchPriority(done: Pending, m: Message)
    ensures m.stream != "" ==> Echo(m) == m.stream && Step(done, m) == done
    ensures m.stream == "" && m.status != "" ==> Echo(m) == m.status + "\n" && Step(done, m) == done
    ensures Decisive(m) ==> Echo(m) == "" && Step(done, m) != Resolve
  {
  }

  /** Output of consecutive event sequences concatenates. */
  lemma {:induction false} WrittenAppend(a: seq<Message>, b: seq<Message>)
    ensures Written(a + b) == Written(a) + Written(b)
    decreases |b|
  {
    if b == [] {
      assert a + b == a;
    } else {
      var init := b[..|b| - 1];
      assert (a + b)[..|a + b| - 1] == a + init;
      assert (a + b)[|a + b| - 1] == b[|b| - 1];
      WrittenAppend(a, init);
      assert Written(a + b) == Written(a + init) + Echo(b[|b| - 1]);
    }
  }

  /** The output is exactly the text of the stream and status messages, in
      order: a message after an error is still written, and the decisive
      message itself writes nothing. */
  lemma WrittenAfterDecisive(before: seq<Message>, m: Message, after: seq<Message>)
    requires Decisive(m)
    ensures Written(before + [m] + after) == Written(before) + Written(after)
  {
    WrittenAppend(before + [m], after);
    assert (before + [m])[..|before|] == before;
    assert Written(before + [m]) == Written(before) + Echo(m);
    assert Echo(m) == "";
    assert Written(before) + "" == Written(before);
  }

  /** With no decisive message the pending outcome stays `resolve`. */
  lemma {:induction false} PendingWithoutDecisive(messages: seq<Message>)
    requires forall k :: 0 <= k < |messages| ==> !Decisive(messages[k])
    ensures PendingAfter(messages) == Resolve
  {
    if messages != [] {
      var init := messages[..|messages| - 1];
      assert forall k :: 0 <= k < |init| ==> init[k] == messages[k];
      PendingWithoutDecisive(init);
    }
  }

  /** Otherwise the last decisive message alone decides it: the pending
      outcome is that message's rejection, whatever came before. */
  lemma {:induction false} PendingIsLastDecisive(messages: seq<Message>, k: nat)
    requires k < |messages| && Decisive(messages[k])
    requires forall j :: k < j < |messages| ==> !Decisive(messages[j])
    ensures PendingAfter(messages) == Step(Resolve, messages[k])
    decreases |messages|
  {
    var n := |messages| - 1;
    var init := messages[..n];
    if k < n {
      assert init[k] == messages[k];
      assert forall j :: k < j < |init| ==> init[j] == messages[j];
      PendingIsLastDecisive(init, k);
    }
  }

  /** The error test of the printer: a stream message then an error message
      rejects with the error detail, after writing the stream text and the final line break. */
  lemma ErrorResponseExample(hello: Message, failure: Message)
    requires hello == Message("{\"stream\":\"Hello World\"}", "Hello World", "", false, None)
    requires failure == Message("{\"error\":\"ERROR\"}", "", "", true, Some("Test Error Message"))
    ensures Written([hello, failure]) + "\n" == "Hello World\n"
    ensures Settle(PendingAfter([hello, failure])) == Some(Rejected("Test Error Message"))
  {
    assert [hello, failure][..1] == [hello];
    assert [hello][..0] == [];
    assert Written([hello]) == "Hello World";
    assert Echo(failure) == "";
    assert PendingAfter([hello]) == Resolve;
  }
}

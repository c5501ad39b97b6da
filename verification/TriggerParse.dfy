/** Reading a schedule with a language model: completion calls that fall back through response
    formats, a classifier of replies, and a retry loop that tells the model what was wrong.

    The model, the cron validator, the date-time reader and the scheduler library are arbitrary
    functions.  The n-th completion call of the run gets the n-th answer. */
module TriggerParse {
  import opened Options
  import opened DateTimes
  import opened Triggers
  import opened Text

  // ---------------------------------------------------------------- one completion

  datatype Format = JsonSchema | JsonObject | NoFormat

  const FORMATS := [JsonSchema, JsonObject, NoFormat]

  /** A completion call raises, answers without a usable choice, or answers with content. */
  datatype Completion = Failed(error: string) | Malformed | Content(content: string)

  datatype Message = System(prompt: string) | User(text: string)

  /** A completion call as it was made: its format and the messages of that moment. */
  datatype CallRecord = CallRecord(format: Format, messages: seq<Message>)

  /** How an attempt ends: a TriggerParseError, any other exception, or a result. */
  datatype Attempt<+T> = ParseError(message: string) | OtherError | Accepted(value: T)

  /** `_extract_content`. */
  function ExtractContent(c: Completion): Attempt<string>
    requires !c.Failed?
  {
    match c
    case Malformed => OtherError
    case Content(s) => if s == "" then ParseError("LLM returned empty response") else Accepted(Strip(s))
  }

  /** The first of the next three answers that did not fail; the third one failing is the end. */
  function Fallback(answers: nat -> Completion, from: nat): (k: nat)
    ensures k < 3
    ensures forall n: nat :: from <= n < from + k ==> answers(n).Failed?
    ensures k < 2 ==> !answers(from + k).Failed?
  {
    if !answers(from).Failed? then 0 else if !answers(from + 1).Failed? then 1 else 2
  }

  function CallOutcome(answers: nat -> Completion, from: nat): Attempt<string> {
    match answers(from + Fallback(answers, from))
    case Failed(e) => ParseError("LLM request failed: " + e)
    case c => ExtractContent(c)
  }

  /** The completion service: it answers in order and remembers what it was asked. */
  class Llm {
    const answers: nat -> Completion
    var calls: seq<CallRecord>

    constructor (answers: nat -> Completion)
      ensures this.answers == answers && calls == []
    {
      this.answers := answers;
      calls := [];
    }

    method Completion(format: Format, messages: seq<Message>) returns (c: Completion)
      modifies this
      ensures c == answers(|old(calls)|) && calls == old(calls) + [CallRecord(format, messages)]
    {
      c := answers(|calls|);
      calls := calls + [CallRecord(format, messages)];
    }
  }

  /** `_call_llm`: the formats in order until a call does not raise. */
  method CallLlm(llm: Llm, messages: seq<Message>) returns (r: Attempt<string>)
    modifies llm
    ensures r == CallOutcome(llm.answers, |old(llm.calls)|)
    ensures |llm.calls| == |old(llm.calls)| + Fallback(llm.answers, |old(llm.calls)|) + 1
    ensures var n := |old(llm.calls)|;
            var made := if !llm.answers(n).Failed? then 1 else if !llm.answers(n + 1).Failed? then 2 else 3;
            var records := [CallRecord(JsonSchema, messages), CallRecord(JsonObject, messages),
                            CallRecord(NoFormat, messages)];
            && llm.calls == old(llm.calls) + records[..made]
            && r == match llm.answers(n + made - 1)
                    case Failed(e) => ParseError("LLM request failed: " + e)
                    case Malformed => OtherError
                    case Content(s) => if s == "" then ParseError("LLM returned empty response") else Accepted(Strip(s))
  {
    ghost var start := |llm.calls|;
    ghost var before := llm.calls;
    var lastExc := "";
    var i := 0;
    while i < |FORMATS|
      invariant 0 <= i <= |FORMATS|
      invariant llm.calls == before + seq(i, n requires 0 <= n < i => CallRecord(FORMATS[n], messages))
      invariant forall n: nat :: start <= n < start + i ==> llm.answers(n).Failed?
      invariant i > 0 ==> llm.answers(start + i - 1) == Failed(lastExc)
    {
      var c := llm.Completion(FORMATS[i], messages);
      i := i + 1;
      if c.Failed? {
        lastExc := c.error;
      } else {
        assert Fallback(llm.answers, start) == i - 1;
        return ExtractContent(c);
      }
    }
    assert llm.answers(start + 0).Failed? && llm.answers(start + 1).Failed?;
    return ParseError("LLM request failed: " + lastExc);
  }

  // ---------------------------------------------------------------- one reply

  datatype Unit = SECONDS | MINUTES | HOURS | DAYS | WEEKS

  function UnitSeconds(u: Unit): int {
    match u
    case SECONDS => 1
    case MINUTES => 60
    case HOURS => 3600
    case DAYS => 86400
    case WEEKS => 604800
  }

  datatype Kind = KCron | KInterval | KOnce

  /** The reply's fields after their own types were checked. */
  datatype Output = Output(
    kind: Kind, cronExpr: Option<string>, intervalValue: Option<int>, intervalUnit: Option<Unit>,
    onceDatetime: Option<string>)

  /** JSON decoding and field validation of a reply. */
  datatype Decoded =
    | NotJson                    // json.loads fails
    | NotAnObject                // some other JSON value than an object
    | BadFields                  // an object whose fields fail validation
    | Fields(output: Output)

  function IsSet(s: Option<string>): bool {
    s.Some? && s.value != ""
  }

  /** `validate_type_fields`: the fields of the reply's own kind and no others. */
  predicate TypeFieldsValid(o: Output) {
    match o.kind
    case KCron => IsSet(o.cronExpr) && o.intervalValue.None? && o.intervalUnit.None? && o.onceDatetime.None?
    case KInterval =>
      && o.intervalValue.Some? && o.intervalUnit.Some? && o.intervalValue.value > 0
      && o.cronExpr.None? && o.onceDatetime.None?
    case KOnce => IsSet(o.onceDatetime) && o.cronExpr.None? && o.intervalValue.None? && o.intervalUnit.None?
  }

  /** The libraries a reply is checked with. */
  datatype Libraries = Libraries(
    decode: string -> Decoded,
    fromIso: string -> Option<DateTime>,
    validCron: string -> bool,
    schedulable: TriggerSpec -> bool)

  /** `trigger_spec_from_llm_output`; `None` is a ValueError. */
  function SpecFromOutput(lib: Libraries, o: Output, timezone: string): Option<TriggerSpec>
    requires TypeFieldsValid(o)
  {
    match o.kind
    case KCron => Some(CronTriggerSpec(o.cronExpr.value, timezone))
    case KInterval => Some(IntervalTriggerSpec(o.intervalValue.value * UnitSeconds(o.intervalUnit.value)))
    case KOnce =>
      match lib.fromIso(o.onceDatetime.value)
      case None => None
      case Some(t) => Some(OnceTrigger(t))
  }

  /** `_parse_trigger_json`.  A JSON value that is not an object fails validation, and then the
      logging of the failure itself raises, because such a value has no `get`. */
  function ParseTriggerJson(lib: Libraries, raw: string, timezone: string): Attempt<TriggerSpec> {
    match lib.decode(raw)
    case NotJson => ParseError("Invalid JSON")
    case NotAnObject => OtherError
    case BadFields => ParseError("Invalid trigger parse output")
    case Fields(o) =>
      if !TypeFieldsValid(o) then ParseError("Invalid trigger parse output")
      else
        match SpecFromOutput(lib, o, timezone)
        case None => ParseError("Invalid trigger spec")
        case Some(spec) =>
          if spec.CronTriggerSpec? && !lib.validCron(spec.expression) then ParseError("Invalid cron expression")
          else if !lib.schedulable(spec) then ParseError("Trigger cannot be scheduled")
          else Accepted(spec)
  }

  /** What an accepted specification can be. */
  ghost predicate Sound(lib: Libraries, timezone: string, spec: TriggerSpec) {
    && lib.schedulable(spec)
    && match spec
       case OnceTrigger(t) => exists s :: lib.fromIso(s) == Some(t)
       case CronTriggerSpec(e, tz) => e != "" && lib.validCron(e) && tz == timezone
       case IntervalTriggerSpec(n) => n > 0
  }

  /** The reply asks for this specification: a cron expression, which gets the asked zone, so many units,
      or a text that reads as a date-time; and the fields of the other kinds are absent. */
  predicate AsksFor(lib: Libraries, o: Output, timezone: string, spec: TriggerSpec) {
    match spec
    case CronTriggerSpec(e, tz) =>
      o == Output(KCron, Some(e), None, None, None) && e != "" && lib.validCron(e) && tz == timezone
    case IntervalTriggerSpec(seconds) =>
      && o.intervalValue.Some? && o.intervalUnit.Some?
      && var n := o.intervalValue.value;
      && o == Output(KInterval, None, Some(n), o.intervalUnit, None) && n > 0
      && seconds == (match o.intervalUnit.value
                     case SECONDS => n
                     case MINUTES => n * 60
                     case HOURS => n * 3600
                     case DAYS => n * 86400
                     case WEEKS => n * 604800)
    case OnceTrigger(t) =>
      && o.onceDatetime.Some? && o == Output(KOnce, None, None, None, o.onceDatetime)
      && o.onceDatetime.value != "" && lib.fromIso(o.onceDatetime.value) == Some(t)
  }

  /** A reply is accepted if and only if it asks for a specification that can be scheduled, and the result
      is that specification. */
  lemma AcceptedIff(lib: Libraries, raw: string, timezone: string, spec: TriggerSpec)
    ensures ParseTriggerJson(lib, raw, timezone) == Accepted(spec) <==>
            lib.decode(raw).Fields? && AsksFor(lib, lib.decode(raw).output, timezone, spec) && lib.schedulable(spec)
  {}

  /** Every other reply can be retried, except a JSON value that is no object. */
  lemma RetriedIff(lib: Libraries, raw: string, timezone: string)
    ensures var r := ParseTriggerJson(lib, raw, timezone);
            && (r.OtherError? <==> lib.decode(raw) == NotAnObject)
            && (r.ParseError? <==>
                  lib.decode(raw) != NotAnObject &&
                  !exists spec :: lib.decode(raw).Fields? && lib.schedulable(spec)
                                  && AsksFor(lib, lib.decode(raw).output, timezone, spec))
  {
    var r := ParseTriggerJson(lib, raw, timezone);
    if r.Accepted? { AcceptedIff(lib, raw, timezone, r.value); }
    forall spec | lib.decode(raw).Fields? && lib.schedulable(spec)
                  && AsksFor(lib, lib.decode(raw).output, timezone, spec)
      ensures r == Accepted(spec)
    {
      AcceptedIff(lib, raw, timezone, spec);
    }
  }

  /** What the model is told was wrong: each text exactly in its own case. */
  lemma RejectedFor(lib: Libraries, raw: string, timezone: string)
    ensures var r, d := ParseTriggerJson(lib, raw, timezone), lib.decode(raw);
            && (r == ParseError("Invalid JSON") <==> d.NotJson?)
            && (r == ParseError("Invalid cron expression") <==>
                  exists e :: d == Fields(Output(KCron, Some(e), None, None, None)) && e != "" && !lib.validCron(e))
            && (r == ParseError("Invalid trigger spec") <==>
                  exists s :: d == Fields(Output(KOnce, None, None, None, Some(s))) && s != "" && lib.fromIso(s).None?)
            && (r == ParseError("Trigger cannot be scheduled") <==>
                  exists spec :: d.Fields? && AsksFor(lib, d.output, timezone, spec) && !lib.schedulable(spec))
            && (r.ParseError? && !d.Fields? && !d.NotJson? ==> r == ParseError("Invalid trigger parse output"))
  {
    var d := lib.decode(raw);
    assert |"Invalid JSON"| == 12 && |"Invalid trigger parse output"| == 28 && |"Invalid trigger spec"| == 20;
    assert |"Invalid cron expression"| == 23 && |"Trigger cannot be scheduled"| == 27;
    if d.Fields? && TypeFieldsValid(d.output) {
      var spec := SpecFromOutput(lib, d.output, timezone);
      assert spec.Some? && !(spec.value.CronTriggerSpec? && !lib.validCron(spec.value.expression)) ==>
        AsksFor(lib, d.output, timezone, spec.value);
    }
  }

  lemma AcceptedIsSound(lib: Libraries, raw: string, timezone: string)
    ensures var r := ParseTriggerJson(lib, raw, timezone); r.Accepted? ==> Sound(lib, timezone, r.value)
  {
    var d := lib.decode(raw);
    if d.Fields? && TypeFieldsValid(d.output) && d.output.kind == KInterval {
      var n, u := d.output.intervalValue.value, UnitSeconds(d.output.intervalUnit.value);
      assert n * u > 0;
    }
  }

  // ---------------------------------------------------------------- the retry loop

  function Correction(message: string): Message {
    User("Your previous response was invalid: " + message + ". Return corrected JSON only.")
  }

  /** The answer at which attempt `n` of a run starts. */
  function StartOf(answers: nat -> Completion, n: nat): nat {
    if n == 0 then 0 else StartOf(answers, n - 1) + Fallback(answers, StartOf(answers, n - 1)) + 1
  }

  function AttemptAt(lib: Libraries, tz: string, answers: nat -> Completion, n: nat): Attempt<TriggerSpec> {
    match CallOutcome(answers, StartOf(answers, n))
    case ParseError(m) => ParseError(m)
    case OtherError => OtherError
    case Accepted(raw) => ParseTriggerJson(lib, raw, tz)
  }

  /** Attempts `0` to `n - 1`, all of them parse errors. */
  ghost predicate AllRejected(lib: Libraries, tz: string, answers: nat -> Completion, n: nat) {
    forall i: nat :: i < n ==> AttemptAt(lib, tz, answers, i).ParseError?
  }

  /** The messages attempt `n` is made with. */
  function MessagesAt(
      lib: Libraries, tz: string, answers: nat -> Completion, initial: seq<Message>, n: nat): seq<Message>
  {
    if n == 0 then initial
    else
      var r := AttemptAt(lib, tz, answers, n - 1);
      MessagesAt(lib, tz, answers, initial, n - 1) + [Correction(if r.ParseError? then r.message else "")]
  }

  lemma {:induction false} OneMessagePerFailure(
      lib: Libraries, tz: string, answers: nat -> Completion, initial: seq<Message>, n: nat)
    ensures |MessagesAt(lib, tz, answers, initial, n)| == |initial| + n
    ensures initial <= MessagesAt(lib, tz, answers, initial, n)
    decreases n
  {
    hide AttemptAt, Correction;
    if n > 0 {
      OneMessagePerFailure(lib, tz, answers, initial, n - 1);
      assert initial <= MessagesAt(lib, tz, answers, initial, n - 1) <= MessagesAt(lib, tz, answers, initial, n);
    }
  }

  /** The two initial messages come first and the i-th correction quotes the i-th failure. */
  lemma {:induction false} MessagesInOrder(
      lib: Libraries, tz: string, answers: nat -> Completion, initial: seq<Message>, n: nat, i: nat)
    requires i < n && AllRejected(lib, tz, answers, n)
    ensures |MessagesAt(lib, tz, answers, initial, n)| == |initial| + n
    ensures initial <= MessagesAt(lib, tz, answers, initial, n)
    ensures MessagesAt(lib, tz, answers, initial, n)[|initial| + i] ==
            User("Your previous response was invalid: " + AttemptAt(lib, tz, answers, i).message
                 + ". Return corrected JSON only.")
    decreases n
  {
    OneMessagePerFailure(lib, tz, answers, initial, n);
    OneMessagePerFailure(lib, tz, answers, initial, n - 1);
    if i < n - 1 { MessagesInOrder(lib, tz, answers, initial, n - 1, i); }
  }

  /** The loop's limit: at least one attempt is made whatever the setting. */
  function Limit(maxRetries: int): nat
    ensures Limit(maxRetries) == if maxRetries < 0 then 1 else maxRetries + 1
  {
    if maxRetries + 1 < 1 then 1 else maxRetries + 1
  }

  /** `last` is the deciding attempt: the first that is not a parse error, or the last allowed one. */
  ghost predicate Decides(lib: Libraries, tz: string, answers: nat -> Completion, maxRetries: int, last: nat) {
    && last < Limit(maxRetries)
    && AllRejected(lib, tz, answers, last)
    && (AttemptAt(lib, tz, answers, last).ParseError? ==> last == Limit(maxRetries) - 1)
  }

  lemma DecidesUnique(lib: Libraries, tz: string, answers: nat -> Completion, maxRetries: int, a: nat, b: nat)
    requires Decides(lib, tz, answers, maxRetries, a) && Decides(lib, tz, answers, maxRetries, b)
    ensures a == b
  {
    assert a < b ==> AttemptAt(lib, tz, answers, a).ParseError?;
    assert b < a ==> AttemptAt(lib, tz, answers, b).ParseError?;
  }

  /** Attempt `n` is accepted if and only if the first of its at most three answers that is no failure
      holds text, and that text, stripped, asks for the specification. */
  lemma AttemptAcceptedIff(lib: Libraries, tz: string, answers: nat -> Completion, n: nat, spec: TriggerSpec)
    ensures var first := StartOf(answers, n);
            var c := if !answers(first).Failed? then answers(first)
                     else if !answers(first + 1).Failed? then answers(first + 1)
                     else answers(first + 2);
            AttemptAt(lib, tz, answers, n) == Accepted(spec) <==>
              c.Content? && c.content != "" && lib.schedulable(spec)
              && var reply := lib.decode(Strip(c.content)); reply.Fields? && AsksFor(lib, reply.output, tz, spec)
  {
    hide AsksFor, ParseTriggerJson, Strip, StartOf;
    var r := CallOutcome(answers, StartOf(answers, n));
    if r.Accepted? { AcceptedIff(lib, r.value, tz, spec); }
  }

  /** It ends the loop with an error if and only if that answer has no usable choice, or its text is a
      JSON value that is no object. */
  lemma AttemptFailsIff(lib: Libraries, tz: string, answers: nat -> Completion, n: nat)
    ensures var first := StartOf(answers, n);
            var c := if !answers(first).Failed? then answers(first)
                     else if !answers(first + 1).Failed? then answers(first + 1)
                     else answers(first + 2);
            AttemptAt(lib, tz, answers, n).OtherError? <==>
              c.Malformed? || (c.Content? && c.content != "" && lib.decode(Strip(c.content)) == NotAnObject)
  {
    hide AsksFor, ParseTriggerJson, Strip, StartOf;
    var r := CallOutcome(answers, StartOf(answers, n));
    if r.Accepted? { RetriedIff(lib, r.value, tz); }
  }

  /** Attempts take between one and three answers each. */
  lemma {:induction false} StartBounds(answers: nat -> Completion, n: nat)
    ensures n <= StartOf(answers, n) <= 3 * n
    decreases n
  {
    if n > 0 { StartBounds(answers, n - 1); }
  }

  /** Calls `from` to `to - 1` of the run all carried these messages. */
  ghost predicate CallsCarry(calls: seq<CallRecord>, from: nat, to: nat, messages: seq<Message>) {
    from <= to <= |calls| && forall i :: from <= i < to ==> calls[i].messages == messages
  }

  lemma CallsCarryLonger(calls: seq<CallRecord>, longer: seq<CallRecord>, from: nat, to: nat, messages: seq<Message>)
    requires calls <= longer && CallsCarry(calls, from, to, messages)
    ensures CallsCarry(longer, from, to, messages)
  {}

  /** The body of `_parse_once`: the attempt that starts at the next answer. */
  method ParseOnce(lib: Libraries, tz: string, llm: Llm, messages: seq<Message>, ghost n: nat)
    returns (r: Attempt<TriggerSpec>)
    requires |llm.calls| == StartOf(llm.answers, n)
    modifies llm
    ensures r == AttemptAt(lib, tz, llm.answers, n)
    ensures r.Accepted? ==> Sound(lib, tz, r.value)
    ensures old(llm.calls) <= llm.calls && |llm.calls| == StartOf(llm.answers, n + 1)
    ensures CallsCarry(llm.calls, StartOf(llm.answers, n), StartOf(llm.answers, n + 1), messages)
  {
    var raw := CallLlm(llm, messages);
    match raw
    case Accepted(text) =>
      AcceptedIsSound(lib, text, tz);
      r := ParseTriggerJson(lib, text, tz);
    case ParseError(m) => r := ParseError(m);
    case OtherError => r := OtherError;
  }

  /** Every attempt before `n` made its calls with the messages of its own time. */
  ghost predicate CallsInOrder(
      lib: Libraries, tz: string, answers: nat -> Completion, initial: seq<Message>, calls: seq<CallRecord>, n: nat) {
    forall m: nat :: m < n ==>
      CallsCarry(calls, StartOf(answers, m), StartOf(answers, m + 1), MessagesAt(lib, tz, answers, initial, m))
  }

  lemma CallsInOrderLonger(lib: Libraries, tz: string, answers: nat -> Completion, initial: seq<Message>,
                           calls: seq<CallRecord>, longer: seq<CallRecord>, n: nat)
    requires calls <= longer && CallsInOrder(lib, tz, answers, initial, calls, n)
    requires CallsCarry(longer, StartOf(answers, n), StartOf(answers, n + 1), MessagesAt(lib, tz, answers, initial, n))
    ensures CallsInOrder(lib, tz, answers, initial, longer, n + 1)
  {
    forall m: nat | m < n
      ensures CallsCarry(longer, StartOf(answers, m), StartOf(answers, m + 1), MessagesAt(lib, tz, answers, initial, m))
    {
      CallsCarryLonger(calls, longer, StartOf(answers, m), StartOf(answers, m + 1),
                       MessagesAt(lib, tz, answers, initial, m));
    }
  }

  /** `_parse_once` under its retry decorator: parse errors are retried with a correction appended to
      the growing message list, anything else ends the loop, the last error is raised as it is. */
  method ParseWithRetries(lib: Libraries, tz: string, llm: Llm, initial: seq<Message>, maxRetries: int)
    returns (r: Attempt<TriggerSpec>, messages: seq<Message>, ghost last: nat)
    requires llm.calls == []
    modifies llm
    ensures Decides(lib, tz, llm.answers, maxRetries, last)
    ensures r == AttemptAt(lib, tz, llm.answers, last)
    ensures r.Accepted? ==> Sound(lib, tz, r.value)
    ensures messages == MessagesAt(lib, tz, llm.answers, initial, last)
    ensures |llm.calls| == StartOf(llm.answers, last + 1) <= 3 * (last + 1)
    ensures CallsInOrder(lib, tz, llm.answers, initial, llm.calls, last + 1)
  {
    var attempts := maxRetries + 1;
    var attemptNumber := 1;
    messages := initial;
    last := 0;
    while true
      invariant attemptNumber == last + 1 && last < Limit(maxRetries)
      invariant AllRejected(lib, tz, llm.answers, last)
      invariant messages == MessagesAt(lib, tz, llm.answers, initial, last)
      invariant |llm.calls| == StartOf(llm.answers, last)
      invariant CallsInOrder(lib, tz, llm.answers, initial, llm.calls, last)
      decreases Limit(maxRetries) - last
    {
      ghost var calls := llm.calls;
      r := ParseOnce(lib, tz, llm, messages, last);
      CallsInOrderLonger(lib, tz, llm.answers, initial, calls, llm.calls, last);
      if !r.ParseError? || attemptNumber >= attempts {
        StartBounds(llm.answers, last + 1);
        return;
      }
      messages := messages + [Correction(r.message)];
      attemptNumber := attemptNumber + 1;
      last := last + 1;
    }
  }
}

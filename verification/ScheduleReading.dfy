/** From a text to a trigger specification: a relative phrase is read directly, any other text by the
    language model with the rendered prompt. */
module ScheduleReading {
  import opened Options
  import opened DateTimes
  import opened Triggers
  import opened TriggerParse
  import opened RelativeSchedule
  import Prompts
  import Text
  import Placeholders = PromptPlaceholders

  /** The once-trigger of a phrase: its wall-clock time in the zone. */
  function PhraseSpec(runAt: DateTime, z: Placeholders.Zone): TriggerSpec {
    OnceTrigger(runAt.(offset := Some(z.utcOffset(Wall(runAt)))))
  }

  /** What the prompt file renders to at this time; `None` if it cannot be read, if a time overflows or
      if a marker is left. */
  function SystemPrompt(template: Option<string>, now: DateTime, z: Placeholders.Zone): Option<string>
    requires Valid(now) && Placeholders.ValidZone(z)
  {
    match (template, Placeholders.BuildPlaceholders(now, z))
    case (Some(t), Some(ps)) =>
      Placeholders.BuiltIsWellFormed(now, z);
      if Text.Within(Prompts.INJECT, Prompts.Successive(ps, t)) then None else Some(Prompts.Successive(ps, t))
    case _ => None
  }

  /** Unless the zone name lies inside a later placeholder name, the prompt is the template with each
      marker replaced by its value, and there is none exactly if the file cannot be read, if the year
      9999 has no Tuesday left or if what is left holds the start of a marker. */
  lemma SystemPromptIs(template: Option<string>, now: DateTime, z: Placeholders.Zone)
    requires Valid(now) && Placeholders.ValidZone(z)
    requires Prompts.Bracketless(z.name) && Placeholders.ClearOfNames(z.name, 2)
    ensures template.None? || now.day >= 3652056 ==> SystemPrompt(template, now, z).None?
    ensures template.Some? && now.day < 3652056 ==>
      var ps := Placeholders.BuildPlaceholders(now, z);
      && ps.Some? && Prompts.WellFormed(ps.value)
      && var prompt := Prompts.Substitute(ps.value, template.value);
         SystemPrompt(template, now, z) == if Text.Within("[INJECT_", prompt) then None else Some(prompt)
  {
    Placeholders.PlaceholdersFailIff(now, z);
    if now.day < 3652056 { Placeholders.RenderingIsSubstitutionIff(now, z); }
  }

  function FirstMessages(prompt: string, text: string): seq<Message> {
    [System(prompt), User(text)]
  }

  /** `parse_trigger_text_to_spec`.  The model is asked exactly when the text holds no phrase and the
      prompt renders; the outcome is then that of the retry loop.  A phrase is never before now on the
      wall clock of the zone. */
  method ParseTriggerTextToSpec(lib: Libraries, text: string, now: DateTime, z: Placeholders.Zone,
                                template: Option<string>, llm: Llm, maxRetries: int)
    returns (r: Attempt<TriggerSpec>, ghost last: nat)
    requires Valid(now) && Placeholders.ValidZone(z) && llm.calls == []
    modifies llm
    ensures llm.calls == [] <==> !Parse(text, now).NoPhrase? || SystemPrompt(template, now, z).None?
    ensures Parse(text, now).Phrase? ==>
      var runAt := Parse(text, now).runAt;
      var spec := OnceTrigger(runAt.(offset := Some(z.utcOffset(Wall(runAt)))));
      && r == (if lib.schedulable(spec) then Accepted(spec) else ParseError("Trigger cannot be scheduled"))
      && Wall(now) <= Wall(spec.runAt)
    ensures Parse(text, now).OverflowError? ==> r == OtherError
    ensures llm.calls == [] && Parse(text, now).NoPhrase? ==>
      r == if template.None? then ParseError("Failed to read prompt file")
           else if now.day >= 3652056 then OtherError
           else ParseError("Unreplaced placeholders remain in trigger parse prompt")
    ensures llm.calls != [] ==>
      var prompt := SystemPrompt(template, now, z).value;
      && Decides(lib, z.name, llm.answers, maxRetries, last)
      && r == AttemptAt(lib, z.name, llm.answers, last)
      && CallsInOrder(lib, z.name, llm.answers, [System(prompt), User(text)], llm.calls, last + 1)
      && |llm.calls| == StartOf(llm.answers, last + 1)
      && (r.Accepted? ==> Sound(lib, z.name, r.value))
  {
    hide Parse, Placeholders.BuildPlaceholders;
    last := 0;
    var once := TryParseOnceSchedule(text, now);
    match once {
      case OverflowError => return OtherError, 0;
      case Phrase(runAt) =>
        var spec := PhraseSpec(runAt, z);
        if !lib.schedulable(spec) { return ParseError("Trigger cannot be scheduled"), 0; }
        return Accepted(spec), 0;
      case NoPhrase =>
    }
    if template.None? { return ParseError("Failed to read prompt file"), 0; }
    Placeholders.PlaceholdersFailIff(now, z);
    var ps := Placeholders.BuildPlaceholders(now, z);
    if ps.None? { return OtherError, 0; }
    Placeholders.BuiltIsWellFormed(now, z);
    var rendered := Prompts.RenderTriggerParsePrompt(template.value, ps.value);
    if rendered.None? { return ParseError("Unreplaced placeholders remain in trigger parse prompt"), 0; }
    var messages;
    StartBounds(llm.answers, 1);
    r, messages, last := ParseWithRetries(lib, z.name, llm, FirstMessages(rendered.value, text), maxRetries);
    StartBounds(llm.answers, last + 1);
  }
}

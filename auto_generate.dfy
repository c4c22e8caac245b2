/**
 * When the task details view may ask for a motivational message on its
 * own: the day window, the tone, message staleness, the `canGenerate`
 * decision, and the guards of `triggerGenerate`.
 */
module AutoGenerate {
  import opened Wrappers
  import opened Calendar

  /** A date string as `new Date(s)` sees it: missing or empty, not a date, or a date. */
  datatype DateText = Absent | Unparsable | Parsed(at: Instant)

  /** Messages older than this are stale. */
  const StaleThresholdMs: int := 24 * 60 * 60 * 1000

  /** `getDiffDaysFromToday`: whole days from today's midnight to the date's midnight, when there is a date. */
  function GetDiffDaysFromToday(date: DateText, now: Instant): (d: Option<int>)
    ensures d.Some? <==> date.Parsed?
    ensures d.Some? ==> d.value == DayNumber(date.at.date) - DayNumber(now.date)
  {
    match date
    case Absent => None
    case Unparsable => None
    case Parsed(at) => Some(DiffDays(at, now))
  }

  /** `isAutoGenerateWindowOpen`: on the due day and after it. */
  predicate IsAutoGenerateWindowOpen(due: DateText, now: Instant): (open: bool)
    ensures open ==> due.Parsed? && DayNumber(due.at.date) <= DayNumber(now.date)
  {
    var diffDays := GetDiffDaysFromToday(due, now);
    if diffDays.None? then false else diffDays.value <= 0
  }

  /** The window is open exactly when the due date is known and falls today or earlier. */
  lemma WindowOpenIffDueByToday(due: DateText, now: Instant)
    ensures IsAutoGenerateWindowOpen(due, now) <==>
      due.Parsed? && (due.at.date == now.date || Before(due.at.date, now.date))
  {
    if due.Parsed? {
      if Before(due.at.date, now.date) {
        DayNumberMonotone(due.at.date, now.date);
      } else if Before(now.date, due.at.date) {
        DayNumberMonotone(now.date, due.at.date);
      }
    }
  }

  /** Due today or yesterday: open; due tomorrow: closed; no usable date: closed. */
  lemma WindowExamples(now: Instant, t: TimeOfDay)
    ensures IsAutoGenerateWindowOpen(Parsed(Instant(now.date, t)), now)
    ensures IsAutoGenerateWindowOpen(Parsed(Instant(AddDays(now.date, -1), t)), now)
    ensures !IsAutoGenerateWindowOpen(Parsed(Instant(AddDays(now.date, 1), t)), now)
    ensures !IsAutoGenerateWindowOpen(Absent, now) && !IsAutoGenerateWindowOpen(Unparsable, now)
  {
  }

  /** `MotivationalTone`. */
  datatype Tone = Encouraging | Playful | Neutral

  /** `deriveToneByDueDate`. */
  function DeriveToneByDueDate(due: DateText, now: Instant): (tone: Tone)
    ensures tone != Neutral
  {
    match due
    case Absent => Encouraging
    case Unparsable => Encouraging
    case Parsed(at) =>
      var diffDays := DiffDays(at, now);
      if diffDays < 0 then Encouraging
      else if diffDays == 0 then Playful
      else Encouraging
  }

  /** Playful exactly on the due day; encouraging before, after, and without a date. */
  lemma PlayfulOnlyOnDueDay(due: DateText, now: Instant)
    ensures DeriveToneByDueDate(due, now) == Playful <==> due.Parsed? && due.at.date == now.date
    ensures DeriveToneByDueDate(due, now) == Playful ==> IsAutoGenerateWindowOpen(due, now)
  {
    if due.Parsed? && DayNumber(due.at.date) == DayNumber(now.date) {
      DayNumberInjective(due.at.date, now.date);
    }
  }

  /** `MotivationalMessageDto`, as far as staleness looks at it. */
  datatype Message = Message(generatedAt: DateText)

  /** `isMessageStale`: no message, no usable time, or generated a day or more ago. */
  predicate IsMessageStale(message: Option<Message>, now: Instant): (stale: bool)
    ensures !stale ==> message.Some? && message.value.generatedAt.Parsed?
    ensures !stale ==> EpochMs(now) < EpochMs(message.value.generatedAt.at) + StaleThresholdMs
    ensures message.Some? && message.value.generatedAt.Parsed? ==>
      (stale <==> EpochMs(now) - EpochMs(message.value.generatedAt.at) >= StaleThresholdMs)
  {
    if message.None? || !message.value.generatedAt.Parsed? then true
    else EpochMs(now) - EpochMs(message.value.generatedAt.at) >= StaleThresholdMs
  }

  /** An hour-old message is fresh; one from 25 hours ago is stale. */
  lemma StalenessExamples(now: Instant, hourAgo: Instant, dayAndHourAgo: Instant)
    requires EpochMs(now) - EpochMs(hourAgo) == 60 * 60 * 1000
    requires EpochMs(now) - EpochMs(dayAndHourAgo) == 25 * 60 * 60 * 1000
    ensures !IsMessageStale(Some(Message(Parsed(hourAgo))), now)
    ensures IsMessageStale(Some(Message(Parsed(dayAndHourAgo))), now)
    ensures IsMessageStale(None, now) && IsMessageStale(Some(Message(Unparsable)), now)
  {
  }

  /** Staleness is monotone in time: once stale, a message stays stale. */
  lemma StaysStale(message: Option<Message>, now: Instant, later: Instant)
    requires EpochMs(now) <= EpochMs(later)
    requires IsMessageStale(message, now)
    ensures IsMessageStale(message, later)
  {
  }

  /** `LatestMessageStatus`. */
  datatype LatestStatus = Idle | Loading | Success | Empty | Error

  /** What the hook is given. */
  datatype HookInputs = HookInputs(
    taskId: string,
    taskName: Option<string>,
    taskDueDate: DateText,
    latestMessage: Option<Message>,
    latestStatus: LatestStatus,
    enabled: bool)

  /** The `canGenerate` memo: each guard in turn. */
  function CanGenerate(h: HookInputs, now: Instant): (can: bool)
    ensures can <==>
      && h.enabled && h.taskId != ""
      && IsAutoGenerateWindowOpen(h.taskDueDate, now)
      && (h.latestStatus == Empty || h.latestStatus == Success)
      && (h.latestMessage.None? || IsMessageStale(h.latestMessage, now))
  {
    if !h.enabled then false
    else if h.taskId == "" then false
    else if !IsAutoGenerateWindowOpen(h.taskDueDate, now) then false
    else if h.latestStatus != Empty && h.latestStatus != Success then false
    else if h.latestMessage.None? then true
    else IsMessageStale(h.latestMessage, now)
  }

  /** The request body sent to the generation endpoint. */
  datatype GenerateRequest = GenerateRequest(taskId: string, taskName: string, tone: Tone, maxLength: int)

  /** The response's JSON body, as far as the error message is taken from it. */
  datatype ResponseBody = NoJson | Json(error: Option<string>, message: Option<string>)

  /** What the request came to: an HTTP status with its body, or an exception from `fetch` itself. */
  datatype FetchOutcome = Responded(status: int, body: ResponseBody) | FetchThrew(message: string)

  const NoTaskNameError: string := "Brak nazwy zadania do wygenerowania wiadomości"
  const NotFoundError: string := "Zadanie nie zostało znalezione"
  const RateLimitError: string := "Przekroczono limit generowania. Spróbuj ponownie później."
  const GenerationFailedError: string := "Nie udało się wygenerować wiadomości motywacyjnej"

  /** The error text left after a request: none on 201, fixed texts for 404 and 429, else the body's error or message. */
  function ErrorAfter(outcome: FetchOutcome): (e: Option<string>)
    ensures e.None? <==> outcome.Responded? && outcome.status == 201
    ensures outcome.Responded? && outcome.status == 404 ==> e == Some(NotFoundError)
    ensures outcome.Responded? && outcome.status == 429 ==> e == Some(RateLimitError)
    ensures outcome.FetchThrew? ==> e == Some(outcome.message)
  {
    match outcome
    case FetchThrew(message) => Some(message)
    case Responded(status, body) =>
      if status == 201 then None
      else if status == 404 then Some(NotFoundError)
      else if status == 429 then Some(RateLimitError)
      else if body.Json? && body.error.Some? && body.error.value != "" then Some(body.error.value)
      else if body.Json? && body.message.Some? && body.message.value != "" then Some(body.message.value)
      else Some(GenerationFailedError)
  }

  /** The state the hook keeps between renders. */
  class AutoGenerator {
    var isGenerating: bool
    var error: Option<string>
    var lastTriedAt: Option<Instant>

    constructor ()
      ensures !isGenerating && error == None && lastTriedAt == None
    {
      isGenerating := false;
      error := None;
      lastTriedAt := None;
    }

    /** The effect on a change of task: the error and the attempt time are cleared. */
    method TaskChanged()
      modifies this
      ensures error == None && lastTriedAt == None && isGenerating == old(isGenerating)
    {
      error := None;
      lastTriedAt := None;
    }

    /** The effect on a newer message: the attempt time is cleared, so one more attempt is allowed. */
    method MessageChanged()
      modifies this
      ensures lastTriedAt == None && error == old(error) && isGenerating == old(isGenerating)
    {
      lastTriedAt := None;
    }

    /**
     * The auto-trigger effect: generation starts by itself when it is allowed,
     * the latest message is neither loading nor idle, and no attempt was made
     * since the last reset. Since `canGenerate` already admits only the
     * `empty` and `success` states, the status test adds nothing.
     */
    function AutoTriggers(h: HookInputs, now: Instant): (fire: bool)
      reads this
      ensures fire <==> CanGenerate(h, now) && lastTriedAt.None?
    {
      CanGenerate(h, now) && h.latestStatus != Loading && h.latestStatus != Idle && lastTriedAt.None?
    }

    /**
     * `triggerGenerate(force)`: nothing while a request is running, when
     * disabled, or when not forced and generation is not allowed; an error
     * without a request when the task has no name; otherwise one request,
     * after which the attempt time and the error are recorded.
     */
    method TriggerGenerate(h: HookInputs, force: bool, now: Instant, outcome: FetchOutcome)
      returns (request: Option<GenerateRequest>, generated: bool)
      modifies this
      ensures old(isGenerating) || !h.enabled || (!force && !CanGenerate(h, now)) ==>
        request == None && !generated
        && isGenerating == old(isGenerating) && error == old(error) && lastTriedAt == old(lastTriedAt)
      ensures !old(isGenerating) && h.enabled && (force || CanGenerate(h, now))
              && (h.taskName.None? || h.taskName.value == "") ==>
        request == None && !generated
        && error == Some(NoTaskNameError) && !isGenerating && lastTriedAt == old(lastTriedAt)
      ensures !old(isGenerating) && h.enabled && (force || CanGenerate(h, now))
              && h.taskName.Some? && h.taskName.value != "" ==>
        && request == Some(GenerateRequest(h.taskId, h.taskName.value, DeriveToneByDueDate(h.taskDueDate, now), 150))
        && generated == (outcome.Responded? && outcome.status == 201)
        && error == ErrorAfter(outcome)
        && lastTriedAt == (if outcome.Responded? then Some(now) else old(lastTriedAt))
        && !isGenerating
    {
      request, generated := None, false;
      if isGenerating {
        return;
      }
      if !h.enabled {
        return;
      }
      if !force && !CanGenerate(h, now) {
        return;
      }
      if h.taskName.None? || h.taskName.value == "" {
        error := Some(NoTaskNameError);
        return;
      }
      isGenerating := true;
      error := None;
      request := Some(GenerateRequest(h.taskId, h.taskName.value, DeriveToneByDueDate(h.taskDueDate, now), 150));
      match outcome {
        case FetchThrew(message) =>
          error := Some(message);
        case Responded(status, body) =>
          lastTriedAt := Some(now);
          if status == 201 {
            generated := true;
          } else if status == 404 {
            error := Some(NotFoundError);
          } else if status == 429 {
            error := Some(RateLimitError);
          } else {
            var message :=
              if body.Json? && body.error.Some? && body.error.value != "" then body.error.value
              else if body.Json? && body.message.Some? && body.message.value != "" then body.message.value
              else GenerationFailedError;
            error := Some(message);
          }
      }
      isGenerating := false;
    }
  }
}

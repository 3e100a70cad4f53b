/**
 * The streaming reply loop of src/catgpt/commands/chat.py (`do_reply`) and the
 * model choice of `handle_message`.
 *
 * Time is integer milliseconds. Each chunk carries the clock reading taken when it
 * is handled; the final flush reads the clock once more (`endAt`). The markdown
 * escaper is an arbitrary function `escape`, and Telegram's answer to the n-th
 * call the loop makes is `api(n, call)`.
 */
module Chat {
  import opened Wrappers
  import opened PyStr
  import Text

  /** The initial and post-success pause between edits: 1.8 s. */
  const EDIT_TIMEOUT: int := 1800
  /** The pause after a 400 answer: 2.5 s. */
  const BAD_REQUEST_TIMEOUT: int := 2500
  /** The pause after a 429 answer whose retry time cannot be read: 10 s. */
  const TOO_MANY_REQUESTS_TIMEOUT: int := 10000
  /** An edit is attempted before the chunk that finishes only once this much is buffered. */
  const MIN_BUFFERED: int := 18

  /** One streamed chunk: `content` may be None, `finished` is the stop reason. */
  datatype Chunk = Chunk(content: Option<string>, finished: Option<string>, at: int)

  /** What the loop asks of Telegram (edits and follow-up messages) or of the event loop (sleep). */
  datatype Call = EditText(text: string) | SendMessage(text: string) | Sleep(seconds: int)

  /** Telegram's answer: success, or an `ApiTelegramException` with its code and description. */
  datatype ApiResult = Success | ApiError(code: int, description: string)

  /** The loop's variables: `text` is shown, `buffered` is not yet shown. */
  datatype Pacer = Pacer(text: string, buffered: string, start: int, timeout: int, overflow: bool, calls: seq<Call>)

  /** The loop is still consuming chunks, or an unexpected edit error was re-raised. */
  datatype Progress = Running(pacer: Pacer) | Aborted(code: int, failedCalls: seq<Call>)

  /** `do_reply` returned the text, or raised the code of an edit or send error. */
  datatype Outcome = Replied(reply: string, log: seq<Call>) | Failed(errorCode: int, errorLog: seq<Call>)

  function ContentOf(c: Chunk): string {
    c.content.GetOr("")
  }

  /** The texts of the chunks, `None` counted as "". */
  function Contents(chunks: seq<Chunk>): (r: seq<string>)
    ensures |r| == |chunks|
  {
    if chunks == [] then [] else Contents(chunks[..|chunks| - 1]) + [ContentOf(chunks[|chunks| - 1])]
  }

  predicate Finished(c: Chunk) {
    c.finished == Some("stop")
  }

  /** The condition under which the loop attempts an edit after buffering `c`. */
  predicate Due(p: Pacer, c: Chunk) {
    (c.at - p.start > p.timeout && |p.buffered + ContentOf(c)| >= MIN_BUFFERED) || Finished(c)
  }

  /** The pause set by a 429 answer: the seconds after the description's last space, plus one. */
  function RetryTimeout(description: string): int {
    var seconds := Text.GetTimeoutFromText(description);
    if seconds < 0 then TOO_MANY_REQUESTS_TIMEOUT else (seconds + 1) * 1000
  }

  /** One iteration of the `async for` loop. */
  function Step(p: Pacer, c: Chunk, escape: string -> string, api: (nat, Call) -> ApiResult): Progress {
    var buffered := p.buffered + ContentOf(c);
    if p.overflow then Running(p.(buffered := buffered))
    else if !Due(p, c) then Running(p.(buffered := buffered))
    else
      var messageText := escape(p.text + buffered);
      if |messageText| > Text.MAX_TEXT_LENGTH then
        Running(p.(buffered := buffered, start := c.at, overflow := true))
      else
        var call := EditText(messageText);
        var calls := p.calls + [call];
        match api(|p.calls|, call)
        case Success =>
          Running(Pacer(p.text + buffered, "", c.at, EDIT_TIMEOUT, false, calls))
        case ApiError(code, description) =>
          if code == 400 then Running(p.(buffered := buffered, start := c.at, timeout := BAD_REQUEST_TIMEOUT, calls := calls))
          else if code == 429 then Running(p.(buffered := buffered, start := c.at, timeout := RetryTimeout(description), calls := calls))
          else Aborted(code, calls)
  }

  function Initial(startAt: int): Pacer {
    Pacer("", "", startAt, EDIT_TIMEOUT, false, [])
  }

  /** The state after the loop has consumed `chunks`. */
  function Run(chunks: seq<Chunk>, startAt: int, escape: string -> string, api: (nat, Call) -> ApiResult): Progress {
    if chunks == [] then Running(Initial(startAt))
    else
      match Run(chunks[..|chunks| - 1], startAt, escape, api)
      case Aborted(code, calls) => Aborted(code, calls)
      case Running(p) => Step(p, chunks[|chunks| - 1], escape, api)
  }

  /** The whole-seconds sleep before the final edit, when the pause has not yet passed. */
  function SleepBefore(p: Pacer, endAt: int): seq<Call> {
    var delta := p.timeout - (endAt - p.start);
    if delta > 0 then [Sleep(delta / 1000 + 1)] else []
  }

  /** The code after the loop: flush what is still buffered. */
  function Flush(p: Pacer, endAt: int, escape: string -> string, api: (nat, Call) -> ApiResult): Outcome {
    if |p.buffered| == 0 then Replied(p.text, p.calls)
    else
      var calls := p.calls + SleepBefore(p, endAt);
      var text := p.text + p.buffered;
      var overflow := p.overflow || |escape(text)| > Text.MAX_TEXT_LENGTH;
      var edit := EditText(escape(text));
      match api(|calls|, edit)
      case ApiError(code, _) => Failed(code, calls + [edit])
      case Success =>
        if !overflow then Replied(text, calls + [edit])
        else
          var send := SendMessage(escape(p.buffered));
          match api(|calls| + 1, send)
          case ApiError(code, _) => Failed(code, calls + [edit, send])
          case Success => Replied(text, calls + [edit, send])
  }

  /** What `do_reply` does for a given stream, clock and Telegram. */
  function Reply(chunks: seq<Chunk>, startAt: int, endAt: int, escape: string -> string, api: (nat, Call) -> ApiResult): Outcome {
    match Run(chunks, startAt, escape, api)
    case Aborted(code, calls) => Failed(code, calls)
    case Running(p) => Flush(p, endAt, escape, api)
  }

  method DoReply(chunks: seq<Chunk>, startAt: int, endAt: int, escape: string -> string, api: (nat, Call) -> ApiResult)
    returns (outcome: Outcome)
    ensures outcome == Reply(chunks, startAt, endAt, escape, api)
  {
    var pacer := Pacer("", "", startAt, EDIT_TIMEOUT, false, []);
    for i := 0 to |chunks|
      invariant Run(chunks[..i], startAt, escape, api) == Running(pacer)
    {
      RunSnoc(chunks, i, startAt, escape, api);
      var next := ConsumeChunk(pacer, chunks[i], escape, api);
      if next.Aborted? {
        AbortIsFinal(chunks, i + 1, startAt, escape, api);
        return Failed(next.code, next.failedCalls);
      }
      pacer := next.pacer;
    }
    assert chunks[..|chunks|] == chunks;
    outcome := FinalFlush(pacer, endAt, escape, api);
  }

  /** Lines 144-178: the body of the `async for` loop, for one chunk. */
  method ConsumeChunk(p: Pacer, chunk: Chunk, escape: string -> string, api: (nat, Call) -> ApiResult)
    returns (next: Progress)
    ensures next == Step(p, chunk, escape, api)
  {
    var text, buffered, start, timeout, textOverflow, calls := p.text, p.buffered, p.start, p.timeout, p.overflow, p.calls;
    buffered := buffered + ContentOf(chunk);
    var finished := Finished(chunk);
    if textOverflow {
      return Running(Pacer(text, buffered, start, timeout, textOverflow, calls));
    }
    if (chunk.at - start > timeout && |buffered| >= MIN_BUFFERED) || finished {
      start := chunk.at;
      var messageText := escape(text + buffered);
      if |messageText| > Text.MAX_TEXT_LENGTH {
        textOverflow := true;
        return Running(Pacer(text, buffered, start, timeout, textOverflow, calls));
      }
      var call := EditText(messageText);
      var result := api(|calls|, call);
      calls := calls + [call];
      match result {
        case Success =>
          text := text + buffered;
          buffered := "";
          timeout := EDIT_TIMEOUT;
        case ApiError(code, description) =>
          if code == 400 {
            timeout := BAD_REQUEST_TIMEOUT;
          } else if code == 429 {
            var seconds := Text.GetTimeoutFromText(description);
            timeout := if seconds < 0 then TOO_MANY_REQUESTS_TIMEOUT else (seconds + 1) * 1000;
          } else {
            return Aborted(code, calls);
          }
      }
    }
    next := Running(Pacer(text, buffered, start, timeout, textOverflow, calls));
  }

  /** One more chunk: an aborted run stays aborted, a running one takes a step. */
  lemma RunSnoc(chunks: seq<Chunk>, i: nat, startAt: int, escape: string -> string, api: (nat, Call) -> ApiResult)
    requires i < |chunks|
    ensures Run(chunks[..i + 1], startAt, escape, api) ==
      match Run(chunks[..i], startAt, escape, api)
      case Aborted(code, calls) => Aborted(code, calls)
      case Running(p) => Step(p, chunks[i], escape, api)
  {
    assert chunks[..i + 1][..i] == chunks[..i];
  }

  /** Lines 180-206: the flush after the stream ends. */
  method FinalFlush(p: Pacer, endAt: int, escape: string -> string, api: (nat, Call) -> ApiResult)
    returns (outcome: Outcome)
    ensures outcome == Flush(p, endAt, escape, api)
  {
    var text := p.text;
    var buffered := p.buffered;
    var calls := p.calls;
    var textOverflow := p.overflow;
    if |buffered| > 0 {
      var delta := p.timeout - (endAt - p.start);
      if delta > 0 {
        calls := calls + [Sleep(delta / 1000 + 1)];
      }
      assert calls == p.calls + SleepBefore(p, endAt);
      text := text + buffered;
      var msgText := escape(text);
      if textOverflow || |msgText| > Text.MAX_TEXT_LENGTH {
        textOverflow := true;
        msgText := escape(text);
      }
      var edit := EditText(msgText);
      var result := api(|calls|, edit);
      calls := calls + [edit];
      if result.ApiError? {
        return Failed(result.code, calls);
      }
      if textOverflow {
        var send := SendMessage(escape(buffered));
        var sent := api(|calls|, send);
        calls := calls + [send];
        if sent.ApiError? {
          return Failed(sent.code, calls);
        }
      }
    }
    outcome := Replied(text, calls);
  }

  /** A re-raised edit error ends the loop: later chunks are not consumed. */
  lemma {:induction false} AbortIsFinal(chunks: seq<Chunk>, k: nat, startAt: int, escape: string -> string, api: (nat, Call) -> ApiResult)
    requires k <= |chunks| && Run(chunks[..k], startAt, escape, api).Aborted?
    ensures Run(chunks, startAt, escape, api) == Run(chunks[..k], startAt, escape, api)
    decreases |chunks| - k
  {
    if k == |chunks| {
      assert chunks[..k] == chunks;
    } else {
      assert chunks[..k + 1][..k] == chunks[..k];
      AbortIsFinal(chunks, k + 1, startAt, escape, api);
    }
  }

  // ---------------------------------------------------------------------------
  // Properties of the loop

  /** `text + buffered` is always the concatenation of the chunk texts consumed so far. */
  lemma {:induction false} RunKeepsContent(chunks: seq<Chunk>, startAt: int, escape: string -> string, api: (nat, Call) -> ApiResult)
    requires Run(chunks, startAt, escape, api).Running?
    ensures var p := Run(chunks, startAt, escape, api).pacer; p.text + p.buffered == Concat(Contents(chunks))
  {
    if chunks != [] {
      var init := chunks[..|chunks| - 1];
      var c := chunks[|chunks| - 1];
      RunKeepsContent(init, startAt, escape, api);
      var p := Run(init, startAt, escape, api).pacer;
      assert Contents(chunks) == Contents(init) + [ContentOf(c)];
      ConcatAppend(Contents(init), ContentOf(c));
      StepKeepsContent(p, c, escape, api);
    }
  }

  lemma StepKeepsContent(p: Pacer, c: Chunk, escape: string -> string, api: (nat, Call) -> ApiResult)
    requires Step(p, c, escape, api).Running?
    ensures var q := Step(p, c, escape, api).pacer; q.text + q.buffered == p.text + p.buffered + ContentOf(c)
  {
    var buffered := p.buffered + ContentOf(c);
    assert p.text + buffered == p.text + p.buffered + ContentOf(c);
    assert (p.text + buffered) + "" == p.text + buffered;
  }

  /** A reply that returns normally returns every chunk's text, in order and uncut. */
  lemma ReplyIsWholeStream(chunks: seq<Chunk>, startAt: int, endAt: int, escape: string -> string, api: (nat, Call) -> ApiResult)
    requires Reply(chunks, startAt, endAt, escape, api).Replied?
    ensures Reply(chunks, startAt, endAt, escape, api).reply == Concat(Contents(chunks))
  {
    RunKeepsContent(chunks, startAt, escape, api);
    var p := Run(chunks, startAt, escape, api).pacer;
    if |p.buffered| == 0 {
      assert p.text + p.buffered == p.text;
    }
  }

  /** Every call made inside the loop is an edit whose text fits in one Telegram message. */
  lemma {:induction false} LoopEditsFit(chunks: seq<Chunk>, startAt: int, escape: string -> string, api: (nat, Call) -> ApiResult)
    ensures var calls := match Run(chunks, startAt, escape, api)
      case Running(p) => p.calls
      case Aborted(_, calls) => calls;
      forall k :: 0 <= k < |calls| ==> calls[k].EditText? && |calls[k].text| <= Text.MAX_TEXT_LENGTH
  {
    if chunks != [] {
      LoopEditsFit(chunks[..|chunks| - 1], startAt, escape, api);
      match Run(chunks[..|chunks| - 1], startAt, escape, api)
      case Aborted(_, _) =>
      case Running(p) => StepEditsFit(p, chunks[|chunks| - 1], escape, api);
    }
  }

  /** A step adds at most one call, an edit that fits. */
  lemma StepEditsFit(p: Pacer, c: Chunk, escape: string -> string, api: (nat, Call) -> ApiResult)
    requires forall k :: 0 <= k < |p.calls| ==> p.calls[k].EditText? && |p.calls[k].text| <= Text.MAX_TEXT_LENGTH
    ensures var calls := match Step(p, c, escape, api)
      case Running(q) => q.calls
      case Aborted(_, calls) => calls;
      forall k :: 0 <= k < |calls| ==> calls[k].EditText? && |calls[k].text| <= Text.MAX_TEXT_LENGTH
  {
  }

  /** Once the overflow flag is set, the loop only buffers: no call, no clock reset, flag kept. */
  lemma OverflowIsSticky(p: Pacer, c: Chunk, escape: string -> string, api: (nat, Call) -> ApiResult)
    requires p.overflow
    ensures Step(p, c, escape, api) == Running(p.(buffered := p.buffered + ContentOf(c)))
  {
  }

  /** An overflowed stream stays overflowed to the end of the loop. */
  lemma {:induction false} OverflowPersists(chunks: seq<Chunk>, k: nat, startAt: int, escape: string -> string, api: (nat, Call) -> ApiResult)
    requires k <= |chunks|
    requires Run(chunks[..k], startAt, escape, api).Running? && Run(chunks[..k], startAt, escape, api).pacer.overflow
    ensures Run(chunks, startAt, escape, api).Running?
    ensures Run(chunks, startAt, escape, api).pacer.overflow
    ensures Run(chunks, startAt, escape, api).pacer.calls == Run(chunks[..k], startAt, escape, api).pacer.calls
    ensures Run(chunks, startAt, escape, api).pacer.text == Run(chunks[..k], startAt, escape, api).pacer.text
    decreases |chunks| - k
  {
    if k == |chunks| {
      assert chunks[..k] == chunks;
    } else {
      assert chunks[..k + 1][..k] == chunks[..k];
      OverflowPersists(chunks, k + 1, startAt, escape, api);
    }
  }

  /**
   * An edit is attempted exactly when the flag is clear and the chunk is due; an attempt
   * resets the clock to the chunk's reading and either sets the flag or makes one edit call.
   * Without an attempt only the buffer grows.
   */
  lemma StepAttempts(p: Pacer, c: Chunk, escape: string -> string, api: (nat, Call) -> ApiResult)
    ensures var attempt := !p.overflow && Due(p, c);
      match Step(p, c, escape, api)
      case Running(q) =>
        && (attempt ==> q.start == c.at && (q.overflow || |q.calls| == |p.calls| + 1))
        && (!attempt ==> q == p.(buffered := p.buffered + ContentOf(c)))
      case Aborted(_, calls) => attempt && |calls| == |p.calls| + 1
  {
  }

  /**
   * A chunk whose stop reason is "stop" is always due, so unless the flag is set it triggers
   * an attempt: the clock is reset and the flag is set or one edit call is made.
   */
  lemma FinishedChunkAttempts(p: Pacer, c: Chunk, escape: string -> string, api: (nat, Call) -> ApiResult)
    requires !p.overflow && c.finished == Some("stop")
    ensures Due(p, c)
    ensures match Step(p, c, escape, api)
      case Running(q) => q.start == c.at && (q.overflow || |q.calls| == |p.calls| + 1)
      case Aborted(_, calls) => |calls| == |p.calls| + 1
  {
    StepAttempts(p, c, escape, api);
  }

  /** The answer to an edit decides the next state. */
  lemma StepAnswer(p: Pacer, c: Chunk, escape: string -> string, api: (nat, Call) -> ApiResult)
    requires !p.overflow && Due(p, c)
    requires |escape(p.text + p.buffered + ContentOf(c))| <= Text.MAX_TEXT_LENGTH
    ensures var buffered := p.buffered + ContentOf(c);
      var call := EditText(escape(p.text + buffered));
      var r := Step(p, c, escape, api);
      match api(|p.calls|, call)
      case Success =>
        r == Running(Pacer(p.text + buffered, "", c.at, EDIT_TIMEOUT, false, p.calls + [call]))
      case ApiError(code, d) =>
        if code == 400 then r.Running? && r.pacer.timeout == 2500 && r.pacer.text == p.text && r.pacer.buffered == buffered
        else if code == 429 then
          r.Running? && r.pacer.text == p.text && r.pacer.buffered == buffered &&
          r.pacer.timeout == (if Text.GetTimeoutFromText(d) < 0 then 10000 else (Text.GetTimeoutFromText(d) + 1) * 1000)
        else r == Aborted(code, p.calls + [call])
  {
    assert p.text + p.buffered + ContentOf(c) == p.text + (p.buffered + ContentOf(c));
  }

  /** A 429 answer whose description ends in " <n>" pauses for n + 1 seconds. */
  lemma RetryAfterSeconds(prefix: string, n: nat)
    ensures RetryTimeout(prefix + " " + IntToString(n)) == (n + 1) * 1000
  {
    Text.TimeoutOfTrailingInteger(prefix, n);
  }

  /** Before the first pause has passed, only a finished chunk can trigger an edit. */
  lemma NoEarlyEdit(c: Chunk, startAt: int, escape: string -> string, api: (nat, Call) -> ApiResult)
    requires c.at - startAt <= EDIT_TIMEOUT && !Finished(c)
    ensures Step(Initial(startAt), c, escape, api) == Running(Initial(startAt).(buffered := ContentOf(c)))
  {
  }

  /**
   * A stream whose chunks all arrive within the first pause and none of which finishes
   * makes no call at all: the loop only buffers their texts.
   */
  lemma {:induction false} NoEarlyEdits(chunks: seq<Chunk>, startAt: int, escape: string -> string, api: (nat, Call) -> ApiResult)
    requires forall k :: 0 <= k < |chunks| ==> chunks[k].at - startAt <= EDIT_TIMEOUT && !Finished(chunks[k])
    ensures Run(chunks, startAt, escape, api) == Running(Initial(startAt).(buffered := Concat(Contents(chunks))))
  {
    if chunks == [] {
      assert Initial(startAt).(buffered := Concat(Contents(chunks))) == Initial(startAt);
    } else {
      var init := chunks[..|chunks| - 1];
      var c := chunks[|chunks| - 1];
      assert forall k :: 0 <= k < |init| ==> init[k] == chunks[k];
      NoEarlyEdits(init, startAt, escape, api);
      if init == [] {
        NoEarlyEdit(c, startAt, escape, api);
      }
      assert Contents(chunks) == Contents(init) + [ContentOf(c)];
      ConcatAppend(Contents(init), ContentOf(c));
    }
  }

  // ---------------------------------------------------------------------------
  // Properties of the final flush

  /** Nothing buffered: no sleep, no call, the shown text is returned. */
  lemma FlushNothingBuffered(p: Pacer, endAt: int, escape: string -> string, api: (nat, Call) -> ApiResult)
    requires p.buffered == []
    ensures Flush(p, endAt, escape, api) == Replied(p.text, p.calls)
  {
  }

  /**
   * Something buffered: sleep `int(delta) + 1` seconds only when the pause has not passed,
   * then edit with the whole escaped text; after an overflow (in the loop or now),
   * follow up with the escaped remainder as a new message.
   */
  lemma FlushCalls(p: Pacer, endAt: int, escape: string -> string, api: (nat, Call) -> ApiResult)
    requires p.buffered != []
    ensures var delta := p.timeout - (endAt - p.start);
      var sleep := if delta > 0 then [Sleep(delta / 1000 + 1)] else [];
      var text := p.text + p.buffered;
      var edits := p.calls + sleep + [EditText(escape(text))];
      var overflow := p.overflow || |escape(text)| > Text.MAX_TEXT_LENGTH;
      match Flush(p, endAt, escape, api)
      case Replied(reply, log) =>
        && reply == text
        && log == (if overflow then edits + [SendMessage(escape(p.buffered))] else edits)
      case Failed(_, log) => log == edits || (overflow && log == edits + [SendMessage(escape(p.buffered))])
  {
    var calls := p.calls + SleepBefore(p, endAt);
    var edit := EditText(escape(p.text + p.buffered));
    var send := SendMessage(escape(p.buffered));
    assert calls + [edit, send] == calls + [edit] + [send];
  }

  // ---------------------------------------------------------------------------
  // handle_message, lines 60-62

  /** The profile's model when the endpoint lists it, else the endpoint's default model. */
  function CoerceModel(model: string, models: seq<string>, defaultModel: string): (r: string)
    ensures model in models ==> r == model
    ensures model !in models ==> r == defaultModel
  {
    if model in models then model else defaultModel
  }

  /** Coercing a second time changes nothing when the default is itself listed. */
  lemma CoerceModelIdempotent(model: string, models: seq<string>, defaultModel: string)
    requires defaultModel in models
    ensures CoerceModel(CoerceModel(model, models, defaultModel), models, defaultModel) == CoerceModel(model, models, defaultModel)
    ensures CoerceModel(model, models, defaultModel) in models
  {
  }
}

/** What the generation loop asks of the engine and gives its caller, read off the log of a run event
    by event: how the prompt is chunked, in which routing mode, when it samples, and what is delivered. */
module GenerationSchedule {
  import opened Wrappers
  import opened Generation

  // ----- totals of a log

  /** Every token the engine reported as consumed, in order. */
  function Fed(log: seq<Event>): seq<Token> {
    if log == [] then [] else
    Fed(log[..|log| - 1]) +
      match log[|log| - 1]
      case Acted(Consume(tokens, _, _, _), Consumed(_, _, _)) => tokens
      case _ => []
  }

  /** Every token the caller accepted, in order. */
  function Given(log: seq<Event>): seq<Token> {
    if log == [] then [] else
    Given(log[..|log| - 1]) +
      match log[|log| - 1]
      case Emitted(token, true) => [token]
      case _ => []
  }

  /** All the routes the engine reported as changed. */
  function RoutesOf(log: seq<Event>): nat {
    if log == [] then 0 else
    RoutesOf(log[..|log| - 1]) +
      match log[|log| - 1]
      case Acted(Consume(_, _, _, _), Consumed(_, changed, _)) => changed
      case _ => 0
  }

  /** The token the engine chose last. */
  function Chosen(log: seq<Event>): Option<Token> {
    if log == [] then None else
    match log[|log| - 1]
    case Acted(_, Consumed(_, _, selected)) => selected
    case Acted(_, Sampled(token)) => Some(token)
    case _ => Chosen(log[..|log| - 1])
  }

  /** A run that has not ended has tallied exactly these. */
  lemma {:induction false} TallyReads(q: Request, log: seq<Event>)
    requires Admissible(q) && Faithful(q, log) && !Ended(q, log)
    ensures var t := Replay(q, log);
            t.committed == Fed(log) && t.delivered == Given(log) && t.routes == RoutesOf(log)
    ensures Replay(q, log).selected.Some? ==> Replay(q, log).selected == Chosen(log)
  {
    if log != [] {
      TallyReads(q, log[..|log| - 1]);
    }
  }

  lemma TallyBefore(q: Request, log: seq<Event>, i: nat)
    requires Admissible(q) && Faithful(q, log) && i < |log|
    ensures Faithful(q, log[..i]) && !Ended(q, log[..i]) && MayFollow(q, log[..i], log[i])
    ensures var t := Replay(q, log[..i]);
            t.committed == Fed(log[..i]) && t.delivered == Given(log[..i]) && (t.selected.Some? ==> t.selected == Chosen(log[..i]))
  {
    FaithfulPrefix(q, log, i);
    TallyReads(q, log[..i]);
  }

  // ----- actions

  /** The request an engine action makes, given the tokens consumed and delivered before it. While the
      prompt lasts it is the next chunk, without bias, as wide as the prefill width and the prompt
      allow, sampling exactly at the prompt's end; then it is the last token delivered, alone, in the
      request's decode mode, always sampling. Only a fully restored prompt is sampled without it. */
  ghost predicate Scheduled(q: Request, fed: seq<Token>, given: seq<Token>, a: Action) {
    var f := q.initialFrontier + |fed|;
    match a
    case Consume(tokens, mode, sample, history) =>
      && history == q.prompt + given
      && (f < |q.prompt| ==>
            && given == [] && mode == Unbiased
            && |tokens| == (if |q.prompt| - f < q.prefillWidth then |q.prompt| - f else q.prefillWidth)
            && tokens == q.prompt[f..f + |tokens|]
            && (sample <==> f + |tokens| == |q.prompt|))
      && (f >= |q.prompt| ==> given != [] && tokens == [given[|given| - 1]] && mode == q.decodeMode && sample)
    case SampleCurrent(history) => history == q.prompt && fed == [] && given == [] && q.initialFrontier == |q.prompt|
  }

  /** Every action of every run is as scheduled, and is made right after a poll that did not cancel. */
  lemma ActionsScheduled(q: Request, log: seq<Event>, i: nat)
    requires Admissible(q) && Faithful(q, log) && i < |log| && log[i].Acted?
    ensures i > 0 && log[i - 1] == Polled(false)
    ensures Scheduled(q, Fed(log[..i]), Given(log[..i]), log[i].action)
  {
    TallyBefore(q, log, i);
    FaithfulInStep(q, log[..i]);
    assert log[..i][i - 1] == log[i - 1];
    assert q.prompt + [] == q.prompt;
  }

  /** An answer that let its run go on was the right one: the whole request consumed and the frontier
      where that puts it, with a token chosen exactly when one was asked for. */
  lemma AnswersChecked(q: Request, log: seq<Event>, i: nat)
    requires Admissible(q) && Faithful(q, log) && i < |log| && log[i].Acted?
    requires i + 1 < |log| || !Ended(q, log)
    ensures match log[i].action
            case Consume(tokens, _, sample, _) =>
              log[i].result.Consumed? && log[i].result.frontier == q.initialFrontier + |Fed(log[..i])| + |tokens|
              && (log[i].result.selected.Some? <==> sample)
            case SampleCurrent(_) => log[i].result.Sampled?
  {
    TallyBefore(q, log, i);
    if i + 1 < |log| {
      FaithfulPrefix(q, log, i + 1);
      assert log[..i + 1][..i] == log[..i];
    } else {
      assert log[..|log| - 1] == log[..i];
    }
  }

  // ----- deliveries

  /** Every token offered to the caller is the one the engine chose last, is no stop token, and comes
      right after that choice was sampled alone or after a poll that did not cancel. */
  lemma DeliveriesChosen(q: Request, log: seq<Event>, i: nat)
    requires Admissible(q) && Faithful(q, log) && i < |log| && log[i].Emitted?
    ensures Chosen(log[..i]) == Some(log[i].token) && log[i].token !in q.stopIds
    ensures i > 0 && (log[i - 1] == Polled(false) || (log[i - 1].Acted? && log[i - 1].action.SampleCurrent?))
  {
    TallyBefore(q, log, i);
    assert log[..i][i - 1] == log[i - 1];
  }

  // ----- outcomes

  /** The statistics of a finished run are the totals of its log, and it finished for the reason given. */
  lemma OutcomeReads(q: Request, log: seq<Event>, stats: Stats)
    requires Admissible(q) && Faithful(q, log) && Explained(q, log, Ok(stats))
    ensures stats.frontier == q.initialFrontier + |Fed(log)| && stats.generatedTokens == |Given(log)|
    ensures stats.changedRoutes == RoutesOf(log)
    ensures stats.promptConsumed == if stats.frontier < |q.prompt| then stats.frontier else |q.prompt|
    ensures stats.prefillTokens == stats.promptConsumed - q.initialFrontier
    ensures match stats.finish
            case MaxTokens => |Given(log)| == q.maxTokens
            case StopToken(token) => token in q.stopIds && Chosen(log) == Some(token) && |Given(log)| < q.maxTokens
            case ContextLimit => stats.frontier == q.maxContext && |Given(log)| < q.maxTokens
            case Cancelled => log != [] && (log[|log| - 1] == Polled(true) || (log[|log| - 1].Acted? && log[|log| - 1].result == Interrupted))
  {
    if Ended(q, log) {
      TallyReads(q, log[..|log| - 1]);
    } else {
      TallyReads(q, log);
    }
    FaithfulInStep(q, log);
    if log != [] {
      FaithfulInStep(q, log[..|log| - 1]);
    }
  }
}

/** The generation loop over an engine whose answers, and whose callers' cancellations, are
    arbitrary. A run is recorded as a log of the events the loop caused. */
module Generation {
  import opened Wrappers

  type Token = nat
  const MAX_ROWS: nat := 4096

  datatype RoutingMode = CachePrior | Unbiased

  datatype Request = Request(prompt: seq<Token>, stopIds: seq<Token>, maxTokens: nat, maxContext: nat,
                             decodeMode: RoutingMode, prefillWidth: nat, initialFrontier: nat)

  datatype Action =
    | Consume(tokens: seq<Token>, mode: RoutingMode, sample: bool, history: seq<Token>)
    | SampleCurrent(history: seq<Token>)

  datatype ActionResult =
    | Consumed(frontier: nat, changedRoutes: nat, selected: Option<Token>)
    | Sampled(token: Token)
    | Interrupted
    | Failed

  datatype Finish = MaxTokens | StopToken(token: Token) | ContextLimit | Cancelled

  datatype Stats = Stats(promptConsumed: nat, prefillTokens: nat, generatedTokens: nat, frontier: nat,
                         changedRoutes: nat, finish: Finish)

  datatype GenerationError = InvalidRequest | EngineFailed | WrongResult | FrontierDiffers | EmitFailed

  /** What the loop causes: a cancellation poll, an engine action, a token given to the caller. */
  datatype Event = Polled(cancelled: bool) | Acted(action: Action, result: ActionResult) | Emitted(token: Token, accepted: bool)

  /** What a log amounts to: tokens committed to the engine, tokens delivered to the caller, routes
      changed, and the token selected but not yet delivered. */
  datatype Tally = Tally(committed: seq<Token>, delivered: seq<Token>, routes: nat, selected: Option<Token>)

  predicate Admissible(q: Request) {
    && q.prompt != [] && q.stopIds != [] && q.maxTokens > 0
    && 1 <= q.prefillWidth <= MAX_ROWS
    && |q.prompt| <= q.maxContext
    && q.initialFrontier <= |q.prompt|
  }

  function Min(a: nat, b: nat): nat { if a < b then a else b }

  function Frontier(q: Request, t: Tally): nat { q.initialFrontier + |t.committed| }

  // ----- the schedule

  /** The one action a tally allows: the next chunk of the prompt, a sample of a complete restored
      prompt, or the commit of the last token delivered. */
  function NextAction(q: Request, t: Tally): Action
    requires Admissible(q)
  {
    var f := Frontier(q, t);
    if f < |q.prompt| then
      Consume(q.prompt[f..Min(f + q.prefillWidth, |q.prompt|)], Unbiased, f + q.prefillWidth >= |q.prompt|, q.prompt + t.delivered)
    else if t.delivered == [] then SampleCurrent(q.prompt)
    else Consume([t.delivered[|t.delivered| - 1]], q.decodeMode, true, q.prompt + t.delivered)
  }

  /** An engine answer that matches its action. */
  predicate Matches(q: Request, t: Tally, a: Action, r: ActionResult) {
    match a
    case Consume(tokens, _, sample, _) => r.Consumed? && r.frontier == Frontier(q, t) + |tokens| && r.selected.Some? == sample
    case SampleCurrent(_) => r.Sampled?
  }

  function After(q: Request, t: Tally, e: Event): Tally {
    match e
    case Polled(_) => t
    case Emitted(token, accepted) => if accepted then t.(delivered := t.delivered + [token], selected := None) else t
    case Acted(a, r) =>
      if !Matches(q, t, a, r) then t
      else if a.SampleCurrent? then t.(selected := Some(r.token))
      else t.(committed := t.committed + a.tokens, routes := t.routes + r.changedRoutes, selected := r.selected)
  }

  function Replay(q: Request, log: seq<Event>): Tally {
    if log == [] then Tally([], [], 0, None) else After(q, Replay(q, log[..|log| - 1]), log[|log| - 1])
  }

  /** The run goes on after an event. */
  predicate GoesOn(q: Request, before: Tally, e: Event) {
    match e
    case Polled(cancelled) => !cancelled
    case Acted(a, r) => Matches(q, before, a, r)
    case Emitted(_, accepted) => accepted && |before.delivered| + 1 != q.maxTokens && Frontier(q, before) != q.maxContext
  }

  /** An event that may follow a log. Actions and deliveries come right after a poll, except the
      delivery of a sample-only token; deliveries are of the selected token, never a stop token. */
  predicate MayFollow(q: Request, log: seq<Event>, e: Event)
    requires Admissible(q)
  {
    var t := Replay(q, log);
    match e
    case Polled(_) => log == [] || log[|log| - 1].Emitted? || (log[|log| - 1].Acted? && log[|log| - 1].action.Consume?)
    case Acted(a, _) => log != [] && log[|log| - 1].Polled? && t.selected.None? && a == NextAction(q, t)
    case Emitted(token, _) =>
      log != [] && !log[|log| - 1].Emitted? && (log[|log| - 1].Acted? ==> log[|log| - 1].action.SampleCurrent?) &&
      t.selected == Some(token) && token !in q.stopIds
  }

  predicate Ended(q: Request, log: seq<Event>) {
    log != [] && !GoesOn(q, Replay(q, log[..|log| - 1]), log[|log| - 1])
  }

  /** Every event may follow the ones before it, none of which ended the run. */
  predicate Faithful(q: Request, log: seq<Event>)
    requires Admissible(q)
  {
    log == [] || (Faithful(q, log[..|log| - 1]) && !Ended(q, log[..|log| - 1]) && MayFollow(q, log[..|log| - 1], log[|log| - 1]))
  }

  lemma Extend(q: Request, log: seq<Event>, e: Event)
    requires Admissible(q) && Faithful(q, log) && !Ended(q, log) && MayFollow(q, log, e)
    ensures Faithful(q, log + [e]) && Replay(q, log + [e]) == After(q, Replay(q, log), e)
    ensures Ended(q, log + [e]) <==> !GoesOn(q, Replay(q, log), e)
  {
    assert (log + [e])[..|log|] == log;
  }

  // ----- what every faithful log keeps

  /** The committed tokens are the rest of the prompt and then delivered tokens, all but at most the
      last one; nothing is delivered before the prompt is complete. */
  ghost predicate InStep(q: Request, t: Tally)
    requires Admissible(q)
  {
    var f := Frontier(q, t);
    && f <= q.maxContext
    && |t.delivered| <= q.maxTokens
    && (forall k :: 0 <= k < |t.delivered| ==> t.delivered[k] !in q.stopIds)
    && (f < |q.prompt| ==> t.delivered == [] && t.selected.None? && t.committed == q.prompt[q.initialFrontier..f])
    && (f >= |q.prompt| ==>
          && f - |q.prompt| <= |t.delivered| <= f - |q.prompt| + 1
          && t.committed == q.prompt[q.initialFrontier..] + t.delivered[..f - |q.prompt|]
          && (t.selected.Some? ==> |t.delivered| == f - |q.prompt|))
  }

  /** Room is left for the next delivery and commit. */
  ghost predicate Room(q: Request, t: Tally)
    requires Admissible(q)
  {
    && |t.delivered| < q.maxTokens
    && (Frontier(q, t) + 1 == |q.prompt| + |t.delivered| ==> Frontier(q, t) < q.maxContext)
    && (Frontier(q, t) == |q.prompt| && t.delivered == [] && t.selected.None? ==> q.initialFrontier == |q.prompt|)
    && (Frontier(q, t) >= |q.prompt| && |t.delivered| == Frontier(q, t) - |q.prompt| && t.delivered != [] ==> t.selected.Some?)
  }

  lemma ChunkInStep(q: Request, t: Tally, r: ActionResult)
    requires Admissible(q) && InStep(q, t) && Room(q, t) && t.selected.None? && Frontier(q, t) < |q.prompt|
    requires Matches(q, t, NextAction(q, t), r)
    ensures var u := After(q, t, Acted(NextAction(q, t), r)); InStep(q, u) && Room(q, u)
  {
    var f := Frontier(q, t);
    var g := Min(f + q.prefillWidth, |q.prompt|);
    var u := After(q, t, Acted(NextAction(q, t), r));
    assert q.prompt[q.initialFrontier..f] + q.prompt[f..g] == q.prompt[q.initialFrontier..g];
    assert Frontier(q, u) == g && u.delivered == [];
    if g == |q.prompt| {
      assert u.committed == q.prompt[q.initialFrontier..] + u.delivered[..0];
    }
  }

  lemma TokenInStep(q: Request, t: Tally, r: ActionResult)
    requires Admissible(q) && InStep(q, t) && Room(q, t) && t.selected.None? && Frontier(q, t) >= |q.prompt|
    requires Matches(q, t, NextAction(q, t), r)
    ensures var u := After(q, t, Acted(NextAction(q, t), r)); InStep(q, u) && Room(q, u)
  {
    var n := Frontier(q, t) - |q.prompt|;
    if t.delivered != [] {
      assert n + 1 == |t.delivered|;
      var last := t.delivered[n];
      assert t.delivered[..n] + [last] == t.delivered == t.delivered[..n + 1];
      assert (q.prompt[q.initialFrontier..] + t.delivered[..n]) + [last] == q.prompt[q.initialFrontier..] + t.delivered[..n + 1];
    }
  }

  lemma CommitInStep(q: Request, t: Tally, r: ActionResult)
    requires Admissible(q) && InStep(q, t) && Room(q, t) && t.selected.None?
    requires Matches(q, t, NextAction(q, t), r)
    ensures var u := After(q, t, Acted(NextAction(q, t), r)); InStep(q, u) && Room(q, u)
  {
    if Frontier(q, t) < |q.prompt| { ChunkInStep(q, t, r); } else { TokenInStep(q, t, r); }
  }

  lemma DeliveryInStep(q: Request, t: Tally, token: Token)
    requires Admissible(q) && InStep(q, t) && Room(q, t) && t.selected == Some(token) && token !in q.stopIds
    ensures var u := After(q, t, Emitted(token, true)); InStep(q, u) && (GoesOn(q, t, Emitted(token, true)) ==> Room(q, u))
  {
    var u := After(q, t, Emitted(token, true));
    var n := Frontier(q, t) - |q.prompt|;
    assert u.delivered[..n] == t.delivered[..n];
  }

  /** Every faithful log is in step, and keeps room while its run goes on. */
  lemma {:induction false} FaithfulInStep(q: Request, log: seq<Event>)
    requires Admissible(q) && Faithful(q, log)
    ensures InStep(q, Replay(q, log)) && (!Ended(q, log) ==> Room(q, Replay(q, log)))
  {
    if log == [] {
      assert q.prompt[q.initialFrontier..q.initialFrontier] == [];
      assert q.prompt[|q.prompt|..] == [];
    } else {
      var before, e := log[..|log| - 1], log[|log| - 1];
      FaithfulInStep(q, before);
      var t := Replay(q, before);
      match e
      case Polled(_) =>
      case Acted(a, r) => if Matches(q, t, a, r) { CommitInStep(q, t, r); }
      case Emitted(token, accepted) => if accepted { DeliveryInStep(q, t, token); }
    }
  }

  lemma {:induction false} FaithfulPrefix(q: Request, log: seq<Event>, n: nat)
    requires Admissible(q) && Faithful(q, log) && n <= |log|
    ensures Faithful(q, log[..n]) && (n < |log| ==> !Ended(q, log[..n]) && MayFollow(q, log[..n], log[n]))
  {
    if n == |log| {
      assert log[..n] == log;
    } else {
      FaithfulPrefix(q, log[..|log| - 1], n);
      assert log[..|log| - 1][..n] == log[..n];
    }
  }

  /** Every token the engine samples from is conditioned on exactly the prompt and the tokens
      delivered so far. */
  lemma SamplingHistory(q: Request, log: seq<Event>, i: nat)
    requires Admissible(q) && Faithful(q, log) && i < |log| && log[i].Acted?
    ensures log[i].action.history == q.prompt + Replay(q, log[..i]).delivered
  {
    FaithfulPrefix(q, log, i);
    assert q.prompt + [] == q.prompt;
  }

  /** A sample-only action is the first action of a run over a completely restored prompt. */
  lemma SampleOnlyFirst(q: Request, log: seq<Event>, i: nat)
    requires Admissible(q) && Faithful(q, log) && i < |log| && log[i].Acted? && log[i].action.SampleCurrent?
    ensures q.initialFrontier == |q.prompt| && i == 1 && log[0] == Polled(false)
  {
    FaithfulPrefix(q, log, i);
    FaithfulInStep(q, log[..i]);
    var t := Replay(q, log[..i]);
    assert Frontier(q, t) == |q.prompt| && t.committed == [] && t.delivered == [] && t.selected.None?;
    QuietStart(q, log[..i]);
  }

  /** A run over a restored prompt that has committed, delivered and selected nothing has done
      nothing but poll once. */
  lemma QuietStart(q: Request, log: seq<Event>)
    requires Admissible(q) && Faithful(q, log) && log != [] && !Ended(q, log) && log[|log| - 1].Polled?
    requires q.initialFrontier == |q.prompt|
    requires var t := Replay(q, log); t.committed == [] && t.delivered == [] && t.selected.None?
    ensures log == [Polled(false)]
  {
    var before := log[..|log| - 1];
    if before != [] {
      assert false;
    }
    assert log == [log[0]];
  }

  // ----- a faithful log leaves the loop no choice

  ghost predicate SameAnswer(a: Event, b: Event) {
    && (a.Polled? && b.Polled? ==> a.cancelled == b.cancelled)
    && (a.Acted? && b.Acted? ==> a.result == b.result)
    && (a.Emitted? && b.Emitted? ==> a.accepted == b.accepted)
  }

  lemma OneChoice(q: Request, log: seq<Event>, a: Event, b: Event)
    requires Admissible(q) && Faithful(q, log) && !Ended(q, log) && MayFollow(q, log, a) && MayFollow(q, log, b) && SameAnswer(a, b)
    ensures a == b
  {
    FaithfulInStep(q, log);
    if log != [] {
      assert Replay(q, log) == After(q, Replay(q, log[..|log| - 1]), log[|log| - 1]);
    }
  }

  lemma SameNext(q: Request, a: seq<Event>, b: seq<Event>, n: nat)
    requires Admissible(q) && Faithful(q, a) && Faithful(q, b) && n < |a| && n < |b|
    requires a[..n] == b[..n] && SameAnswer(a[n], b[n])
    ensures a[n] == b[n]
  {
    FaithfulPrefix(q, a, n);
    FaithfulPrefix(q, b, n);
    OneChoice(q, a[..n], a[n], b[n]);
  }

  /** Two faithful logs that were given the same answers are one log, or one is where the other
      has got to. */
  lemma {:induction false} SameAnswersSameRun(q: Request, a: seq<Event>, b: seq<Event>, n: nat)
    requires Admissible(q) && Faithful(q, a) && Faithful(q, b)
    requires n <= |a| && n <= |b|
    requires forall i :: 0 <= i < n ==> SameAnswer(a[i], b[i])
    ensures a[..n] == b[..n]
  {
    if n > 0 {
      SameAnswersSameRun(q, a, b, n - 1);
      SameNext(q, a, b, n - 1);
      assert a[..n] == a[..n - 1] + [a[n - 1]];
    }
  }

  // ----- outcomes

  function StatsOf(q: Request, t: Tally, finish: Finish): Stats {
    var reached := Min(Frontier(q, t), |q.prompt|);
    Stats(reached, if reached < q.initialFrontier then 0 else reached - q.initialFrontier, |t.delivered|, Frontier(q, t), t.routes, finish)
  }

  /** Why a run finished, read off its log alone. */
  ghost predicate FinishExplained(q: Request, log: seq<Event>, finish: Finish)
    requires Admissible(q)
  {
    var t := Replay(q, log);
    match finish
    case StopToken(token) => log != [] && !Ended(q, log) && !log[|log| - 1].Emitted? && t.selected == Some(token) && token in q.stopIds
    case MaxTokens => log != [] && log[|log| - 1].Emitted? && log[|log| - 1].accepted && |t.delivered| == q.maxTokens
    case ContextLimit =>
      log != [] && log[|log| - 1].Emitted? && log[|log| - 1].accepted && |t.delivered| < q.maxTokens && Frontier(q, t) == q.maxContext
    case Cancelled => log != [] && (log[|log| - 1] == Polled(true) || (log[|log| - 1].Acted? && log[|log| - 1].result == Interrupted))
  }

  ghost predicate ErrorExplained(q: Request, log: seq<Event>, error: GenerationError)
    requires Admissible(q)
  {
    log != [] &&
    match error
    case InvalidRequest => false
    case EngineFailed => log[|log| - 1].Acted? && log[|log| - 1].result == Failed
    case WrongResult => log[|log| - 1].Acted? && (log[|log| - 1].action.Consume? <==> log[|log| - 1].result.Sampled?) &&
                        (log[|log| - 1].result.Sampled? || log[|log| - 1].result.Consumed?)
    case FrontierDiffers => log[|log| - 1].Acted? && log[|log| - 1].action.Consume? && log[|log| - 1].result.Consumed? && Ended(q, log)
    case EmitFailed => log[|log| - 1].Emitted? && !log[|log| - 1].accepted
  }

  /** The frontier a run finishes at: everything delivered is committed on a stop token, all but the
      last token otherwise; a cancelled run may be anywhere between. */
  lemma FinishFrontier(q: Request, log: seq<Event>, finish: Finish)
    requires Admissible(q) && Faithful(q, log) && FinishExplained(q, log, finish)
    ensures var s := StatsOf(q, Replay(q, log), finish);
            && s.frontier <= q.maxContext && s.generatedTokens <= q.maxTokens
            && (finish.StopToken? ==> s.frontier == |q.prompt| + s.generatedTokens)
            && (finish.MaxTokens? || finish.ContextLimit? ==> s.frontier == |q.prompt| + s.generatedTokens - 1)
            && (finish.ContextLimit? ==> s.frontier == q.maxContext)
            && s.prefillTokens + q.initialFrontier == s.promptConsumed
            && s.frontier - s.promptConsumed <= s.generatedTokens
  {
    FaithfulInStep(q, log);
    if finish.MaxTokens? || finish.ContextLimit? {
      var t := Replay(q, log[..|log| - 1]);
      FaithfulInStep(q, log[..|log| - 1]);
      assert Replay(q, log) == After(q, t, log[|log| - 1]) && t.selected.Some?;
    }
  }

  /** The tokens committed to the engine are the rest of the prompt, in order, followed by the
      delivered tokens in order, without the last when it was never committed. */
  lemma CommittedTokens(q: Request, log: seq<Event>)
    requires Admissible(q) && Faithful(q, log)
    ensures var t := Replay(q, log);
            var consumed := Min(Frontier(q, t), |q.prompt|);
            var committed := Frontier(q, t) - consumed;
            && q.initialFrontier <= consumed && committed <= |t.delivered| <= committed + 1
            && t.committed == q.prompt[q.initialFrontier..consumed] + t.delivered[..committed]
  {
    FaithfulInStep(q, log);
    var t := Replay(q, log);
    if Frontier(q, t) < |q.prompt| {
      assert q.prompt[q.initialFrontier..Frontier(q, t)] + t.delivered[..0] == q.prompt[q.initialFrontier..Frontier(q, t)];
    } else {
      assert q.prompt[q.initialFrontier..|q.prompt|] == q.prompt[q.initialFrontier..];
    }
  }

  // ----- the loop

  predicate Answered(e: Event, i: nat, cancelled: nat -> bool, engine: nat -> ActionResult, accepts: nat -> bool) {
    match e
    case Polled(c) => c == cancelled(i)
    case Acted(_, result) => result == engine(i)
    case Emitted(_, accepted) => accepted == accepts(i)
  }

  ghost predicate AllAnswered(log: seq<Event>, cancelled: nat -> bool, engine: nat -> ActionResult, accepts: nat -> bool) {
    forall i :: 0 <= i < |log| ==> Answered(log[i], i, cancelled, engine, accepts)
  }

  /** A result and the log that explains it. */
  ghost predicate Explained(q: Request, log: seq<Event>, r: Result<Stats, GenerationError>)
    requires Admissible(q)
  {
    match r
    case Ok(stats) => FinishExplained(q, log, stats.finish) && stats == StatsOf(q, Replay(q, log), stats.finish)
    case Err(error) => ErrorExplained(q, log, error)
  }

  /** A run that goes on, with its statistics and its undelivered token. */
  ghost predicate Underway(q: Request, log: seq<Event>, stats: Stats, selected: Option<Token>)
    requires Admissible(q)
  {
    && Faithful(q, log) && !Ended(q, log)
    && stats == StatsOf(q, Replay(q, log), Cancelled)
    && selected == Replay(q, log).selected
  }

  /** A log one faithful event longer, with that event's effect. */
  ghost predicate Recorded(q: Request, before: seq<Event>, e: Event, log: seq<Event>)
    requires Admissible(q)
  {
    && log != [] && log[|log| - 1] == e
    && Faithful(q, log)
    && Replay(q, log) == After(q, Replay(q, before), e)
    && (Ended(q, log) <==> !GoesOn(q, Replay(q, before), e))
  }

  method Record(q: Request, before: seq<Event>, e: Event, ghost cancelled: nat -> bool, ghost engine: nat -> ActionResult, ghost accepts: nat -> bool)
    returns (log: seq<Event>)
    requires Admissible(q) && Faithful(q, before) && !Ended(q, before) && MayFollow(q, before, e)
    requires AllAnswered(before, cancelled, engine, accepts) && Answered(e, |before|, cancelled, engine, accepts)
    ensures Recorded(q, before, e, log) && AllAnswered(log, cancelled, engine, accepts)
  {
    Extend(q, before, e);
    log := before + [e];
  }

  /** Poll for cancellation; a cancelled run is over. */
  method Poll(q: Request, before: seq<Event>, stats: Stats, cancelled: nat -> bool, ghost engine: nat -> ActionResult, ghost accepts: nat -> bool)
    returns (stop: bool, log: seq<Event>)
    requires Admissible(q) && Underway(q, before, stats, Replay(q, before).selected) && MayFollow(q, before, Polled(true))
    requires AllAnswered(before, cancelled, engine, accepts)
    ensures Faithful(q, log) && AllAnswered(log, cancelled, engine, accepts) && Replay(q, log) == Replay(q, before)
    ensures stop ==> Explained(q, log, Ok(stats))
    ensures !stop ==> !Ended(q, log) && log != [] && log[|log| - 1] == Polled(false)
  {
    stop := cancelled(|before|);
    log := Record(q, before, Polled(stop), cancelled, engine, accepts);
  }

  /** Commit tokens to the engine and check its frontier; None when the run is over. */
  method Commit(q: Request, before: seq<Event>, stats: Stats, action: Action,
                ghost cancelled: nat -> bool, engine: nat -> ActionResult, ghost accepts: nat -> bool)
    returns (next: Option<(nat, Option<Token>)>, r: Result<Stats, GenerationError>, log: seq<Event>)
    requires Admissible(q) && Underway(q, before, stats, None) && action.Consume? && action == NextAction(q, Replay(q, before))
    requires before != [] && before[|before| - 1] == Polled(false)
    requires AllAnswered(before, cancelled, engine, accepts)
    ensures Faithful(q, log) && AllAnswered(log, cancelled, engine, accepts)
    ensures next.None? ==> Explained(q, log, r)
    ensures next.Some? ==>
              && !Ended(q, log) && log != [] && log[|log| - 1].Acted? && log[|log| - 1].action == action
              && (next.value.1.Some? <==> action.sample)
              && Replay(q, log) == Replay(q, before).(committed := Replay(q, before).committed + action.tokens,
                                                      routes := Replay(q, before).routes + next.value.0, selected := next.value.1)
  {
    var result := engine(|before|);
    log := Record(q, before, Acted(action, result), cancelled, engine, accepts);
    match result {
      case Failed => return None, Err(EngineFailed), log;
      case Interrupted => return None, Ok(stats), log;
      case Sampled(_) => return None, Err(WrongResult), log;
      case Consumed(frontier, changedRoutes, selected) =>
        if frontier != stats.frontier + |action.tokens| || selected.Some? != action.sample {
          return None, Err(FrontierDiffers), log;
        }
        return Some((changedRoutes, selected)), Ok(stats), log;
    }
  }

  /** Statistics after a commit: prompt tokens count as prefill, generated ones only move the frontier. */
  lemma CommitStats(q: Request, t: Tally, tokens: seq<Token>, routes: nat, selected: Option<Token>)
    requires Admissible(q)
    requires Frontier(q, t) + |tokens| <= |q.prompt| || Frontier(q, t) >= |q.prompt|
    ensures var s := StatsOf(q, t, Cancelled);
            var n := if Frontier(q, t) < |q.prompt| then |tokens| else 0;
            StatsOf(q, t.(committed := t.committed + tokens, routes := t.routes + routes, selected := selected), Cancelled)
            == s.(frontier := s.frontier + |tokens|, promptConsumed := s.promptConsumed + n, prefillTokens := s.prefillTokens + n,
                  changedRoutes := s.changedRoutes + routes)
  {
  }

  /** Poll, then commit the next chunk of the prompt. */
  method PrefillChunk(q: Request, before: seq<Event>, stats: Stats, cancelled: nat -> bool, engine: nat -> ActionResult, ghost accepts: nat -> bool)
    returns (next: Option<(nat, Option<Token>)>, tokens: seq<Token>, r: Result<Stats, GenerationError>, log: seq<Event>)
    requires Admissible(q) && Underway(q, before, stats, None) && stats.frontier < |q.prompt| && Replay(q, before).delivered == []
    requires MayFollow(q, before, Polled(true)) && AllAnswered(before, cancelled, engine, accepts)
    ensures Faithful(q, log) && AllAnswered(log, cancelled, engine, accepts)
    ensures next.None? ==> Explained(q, log, r)
    ensures next.Some? ==>
              && !Ended(q, log) && log != [] && log[|log| - 1].Acted? && log[|log| - 1].action.Consume?
              && 0 < |tokens| && stats.frontier + |tokens| <= |q.prompt|
              && (stats.frontier + |tokens| < |q.prompt| ==> next.value.1.None?)
              && Replay(q, log) == Replay(q, before).(committed := Replay(q, before).committed + tokens,
                                                      routes := Replay(q, before).routes + next.value.0, selected := next.value.1)
  {
    tokens := q.prompt[stats.frontier..Min(stats.frontier + q.prefillWidth, |q.prompt|)];
    var stop;
    stop, log := Poll(q, before, stats, cancelled, engine, accepts);
    if stop {
      return None, tokens, Ok(stats), log;
    }
    var sample := stats.frontier + |tokens| == |q.prompt|;
    assert q.prompt + [] == q.prompt;
    next, r, log := Commit(q, log, stats, Consume(tokens, Unbiased, sample, q.prompt), cancelled, engine, accepts);
  }

  /** Commit the rest of the prompt in chunks of the prefill width. */
  method Prefill(q: Request, cancelled: nat -> bool, engine: nat -> ActionResult, ghost accepts: nat -> bool)
    returns (done: bool, r: Result<Stats, GenerationError>, selected: Option<Token>, log: seq<Event>)
    requires Admissible(q)
    ensures Faithful(q, log) && AllAnswered(log, cancelled, engine, accepts)
    ensures done ==> Explained(q, log, r)
    ensures !done ==> r.Ok? && Underway(q, log, r.value, selected) && r.value.frontier == |q.prompt| && Replay(q, log).delivered == []
    ensures !done ==> MayFollow(q, log, Polled(true))
  {
    var stats := Stats(q.initialFrontier, 0, 0, q.initialFrontier, 0, Cancelled);
    selected, log := None, [];
    while stats.frontier < |q.prompt|
      invariant stats.frontier <= |q.prompt| && Underway(q, log, stats, selected)
      invariant Replay(q, log).delivered == [] && (stats.frontier < |q.prompt| ==> selected.None?)
      invariant log != [] ==> log[|log| - 1].Acted? && log[|log| - 1].action.Consume?
      invariant AllAnswered(log, cancelled, engine, accepts)
    {
      ghost var t := Replay(q, log);
      var next, tokens, result;
      next, tokens, result, log := PrefillChunk(q, log, stats, cancelled, engine, accepts);
      if next.None? {
        return true, result, None, log;
      }
      CommitStats(q, t, tokens, next.value.0, next.value.1);
      stats := stats.(frontier := stats.frontier + |tokens|, promptConsumed := stats.promptConsumed + |tokens|,
                      prefillTokens := stats.prefillTokens + |tokens|, changedRoutes := stats.changedRoutes + next.value.0);
      selected := next.value.1;
    }
    return false, Ok(stats), selected, log;
  }

  /** The next token: the one already selected, or a sample of the restored prompt. */
  method Select(q: Request, before: seq<Event>, stats: Stats, selected: Option<Token>,
                ghost cancelled: nat -> bool, engine: nat -> ActionResult, ghost accepts: nat -> bool)
    returns (token: Option<Token>, r: Result<Stats, GenerationError>, log: seq<Event>)
    requires Admissible(q) && Underway(q, before, stats, selected) && before != [] && before[|before| - 1] == Polled(false)
    requires selected.None? ==> NextAction(q, Replay(q, before)) == SampleCurrent(q.prompt)
    requires AllAnswered(before, cancelled, engine, accepts)
    ensures Faithful(q, log) && AllAnswered(log, cancelled, engine, accepts)
    ensures token.None? ==> Explained(q, log, r)
    ensures token.Some? ==>
              && !Ended(q, log) && Replay(q, log) == Replay(q, before).(selected := token)
              && log != [] && (log[|log| - 1].Polled? || (log[|log| - 1].Acted? && log[|log| - 1].action.SampleCurrent?))
  {
    if selected.Some? {
      return selected, Ok(stats), before;
    }
    var result := engine(|before|);
    log := Record(q, before, Acted(SampleCurrent(q.prompt), result), cancelled, engine, accepts);
    match result {
      case Failed => return None, Err(EngineFailed), log;
      case Interrupted => return None, Ok(stats), log;
      case Consumed(_, _, _) => return None, Err(WrongResult), log;
      case Sampled(sampled) => return Some(sampled), Ok(stats), log;
    }
  }

  /** Deliver a token and see whether the run is complete. */
  method Deliver(q: Request, before: seq<Event>, stats: Stats, token: Token,
                 ghost cancelled: nat -> bool, ghost engine: nat -> ActionResult, accepts: nat -> bool)
    returns (done: bool, r: Result<Stats, GenerationError>, log: seq<Event>)
    requires Admissible(q) && Underway(q, before, stats, Some(token)) && stats.generatedTokens < q.maxTokens
    requires before != [] && (before[|before| - 1].Polled? || (before[|before| - 1].Acted? && before[|before| - 1].action.SampleCurrent?))
    requires AllAnswered(before, cancelled, engine, accepts)
    ensures Faithful(q, log) && AllAnswered(log, cancelled, engine, accepts)
    ensures done ==> Explained(q, log, r)
    ensures !done ==>
              && r == Ok(stats.(generatedTokens := stats.generatedTokens + 1)) && Underway(q, log, r.value, None)
              && Replay(q, log).delivered == Replay(q, before).delivered + [token]
              && log != [] && log[|log| - 1].Emitted? && r.value.generatedTokens < q.maxTokens
  {
    if token in q.stopIds {
      return true, Ok(stats.(finish := StopToken(token))), before;
    }
    var accepted := accepts(|before|);
    log := Record(q, before, Emitted(token, accepted), cancelled, engine, accepts);
    if !accepted {
      return true, Err(EmitFailed), log;
    }
    var counted := stats.(generatedTokens := stats.generatedTokens + 1);
    if counted.generatedTokens == q.maxTokens {
      return true, Ok(counted.(finish := MaxTokens)), log;
    }
    if counted.frontier == q.maxContext {
      return true, Ok(counted.(finish := ContextLimit)), log;
    }
    return false, Ok(counted), log;
  }

  lemma NextIsCommit(q: Request, t: Tally, delivered: seq<Token>, token: Token)
    requires Admissible(q) && Frontier(q, t) >= |q.prompt| && t.delivered == delivered + [token]
    ensures NextAction(q, t) == Consume([token], q.decodeMode, true, (q.prompt + delivered) + [token])
  {
    assert (q.prompt + delivered) + [token] == q.prompt + t.delivered;
  }

  /** Poll, select a token and deliver it. */
  method NextToken(q: Request, before: seq<Event>, stats: Stats, selected: Option<Token>,
                   cancelled: nat -> bool, engine: nat -> ActionResult, accepts: nat -> bool)
    returns (token: Option<Token>, r: Result<Stats, GenerationError>, log: seq<Event>)
    requires Admissible(q) && Underway(q, before, stats, selected) && stats.generatedTokens < q.maxTokens
    requires selected.None? ==> NextAction(q, Replay(q, before)) == SampleCurrent(q.prompt)
    requires MayFollow(q, before, Polled(true)) && AllAnswered(before, cancelled, engine, accepts)
    ensures Faithful(q, log) && AllAnswered(log, cancelled, engine, accepts)
    ensures token.None? ==> Explained(q, log, r)
    ensures token.Some? ==>
              && r == Ok(stats.(generatedTokens := stats.generatedTokens + 1)) && Underway(q, log, r.value, None)
              && Replay(q, log).delivered == Replay(q, before).delivered + [token.value]
              && log != [] && log[|log| - 1].Emitted? && r.value.generatedTokens < q.maxTokens
  {
    var stop, done;
    stop, log := Poll(q, before, stats, cancelled, engine, accepts);
    if stop {
      return None, Ok(stats), log;
    }
    token, r, log := Select(q, log, stats, selected, cancelled, engine, accepts);
    if token.None? {
      return;
    }
    done, r, log := Deliver(q, log, stats, token.value, cancelled, engine, accepts);
    if done {
      token := None;
    }
  }

  /** Poll, then commit the token just delivered; None when the run is over. */
  method CommitToken(q: Request, before: seq<Event>, stats: Stats, token: Token, history: seq<Token>,
                     cancelled: nat -> bool, engine: nat -> ActionResult, ghost accepts: nat -> bool)
    returns (next: Option<Token>, r: Result<Stats, GenerationError>, log: seq<Event>)
    requires Admissible(q) && Underway(q, before, stats, None) && before != [] && before[|before| - 1].Emitted?
    requires stats.frontier >= |q.prompt|
    requires NextAction(q, Replay(q, before)) == Consume([token], q.decodeMode, true, history)
    requires AllAnswered(before, cancelled, engine, accepts)
    ensures Faithful(q, log) && AllAnswered(log, cancelled, engine, accepts)
    ensures next.None? ==> Explained(q, log, r)
    ensures next.Some? ==>
              && r.Ok? && Underway(q, log, r.value, next) && MayFollow(q, log, Polled(true))
              && r.value.frontier == stats.frontier + 1 && r.value.generatedTokens == stats.generatedTokens
              && Replay(q, log).delivered == Replay(q, before).delivered
  {
    var stop, committed;
    stop, log := Poll(q, before, stats, cancelled, engine, accepts);
    if stop {
      return None, Ok(stats), log;
    }
    ghost var t := Replay(q, log);
    committed, r, log := Commit(q, log, stats, Consume([token], q.decodeMode, true, history), cancelled, engine, accepts);
    if committed.None? {
      return None, r, log;
    }
    CommitStats(q, t, [token], committed.value.0, committed.value.1);
    r := Ok(stats.(frontier := stats.frontier + 1, changedRoutes := stats.changedRoutes + committed.value.0));
    next := committed.value.1;
  }

  /** Deliver one token and commit it; `more` when the run goes on. */
  method DecodeToken(q: Request, before: seq<Event>, stats: Stats, selected: Option<Token>, history: seq<Token>,
                     cancelled: nat -> bool, engine: nat -> ActionResult, accepts: nat -> bool)
    returns (more: bool, token: Token, next: Option<Token>, r: Result<Stats, GenerationError>, log: seq<Event>)
    requires Admissible(q) && Underway(q, before, stats, selected) && stats.frontier >= |q.prompt| && stats.generatedTokens < q.maxTokens
    requires history == q.prompt + Replay(q, before).delivered && (selected.None? ==> Replay(q, before).delivered == [])
    requires MayFollow(q, before, Polled(true)) && AllAnswered(before, cancelled, engine, accepts)
    ensures Faithful(q, log) && AllAnswered(log, cancelled, engine, accepts)
    ensures !more ==> Explained(q, log, r)
    ensures more ==>
              && r.Ok? && r.value.frontier == stats.frontier + 1 && r.value.generatedTokens == stats.generatedTokens + 1 < q.maxTokens
              && Underway(q, log, r.value, next) && next.Some?
              && Replay(q, log).delivered == Replay(q, before).delivered + [token] && MayFollow(q, log, Polled(true))
  {
    var delivered;
    delivered, r, log := NextToken(q, before, stats, selected, cancelled, engine, accepts);
    if delivered.None? {
      return false, 0, None, r, log;
    }
    token := delivered.value;
    NextIsCommit(q, Replay(q, log), Replay(q, before).delivered, token);
    next, r, log := CommitToken(q, log, r.value, token, history + [token], cancelled, engine, accepts);
    more := next.Some?;
  }

  /** Deliver tokens one by one, committing each before the next is sampled. */
  method Decode(q: Request, started: seq<Event>, start: Stats, first: Option<Token>,
                cancelled: nat -> bool, engine: nat -> ActionResult, accepts: nat -> bool)
    returns (r: Result<Stats, GenerationError>, log: seq<Event>)
    requires Admissible(q) && Underway(q, started, start, first) && start.frontier == |q.prompt| && Replay(q, started).delivered == []
    requires MayFollow(q, started, Polled(true)) && AllAnswered(started, cancelled, engine, accepts)
    ensures Faithful(q, log) && Explained(q, log, r) && AllAnswered(log, cancelled, engine, accepts)
  {
    var stats, selected, history := start, first, q.prompt;
    log := started;
    while true
      invariant Underway(q, log, stats, selected) && stats.frontier >= |q.prompt| && stats.generatedTokens < q.maxTokens
      invariant history == q.prompt + Replay(q, log).delivered && (selected.None? ==> Replay(q, log).delivered == [])
      invariant MayFollow(q, log, Polled(true)) && AllAnswered(log, cancelled, engine, accepts)
      decreases q.maxTokens - stats.generatedTokens
    {
      ghost var delivered := Replay(q, log).delivered;
      var more, token;
      more, token, selected, r, log := DecodeToken(q, log, stats, selected, history, cancelled, engine, accepts);
      if !more {
        return;
      }
      assert (q.prompt + delivered) + [token] == q.prompt + (delivered + [token]);
      stats, history := r.value, history + [token];
    }
  }

  /** Run one request. The n-th event's answer comes from `cancelled`, `engine` or `accepts` at n.
      The log is faithful whatever the answers, and explains the outcome. */
  method RunLoop(q: Request, cancelled: nat -> bool, engine: nat -> ActionResult, accepts: nat -> bool)
    returns (r: Result<Stats, GenerationError>, log: seq<Event>)
    ensures !Admissible(q) ==> r == Err(InvalidRequest) && log == []
    ensures Admissible(q) ==> Faithful(q, log) && Explained(q, log, r)
    ensures AllAnswered(log, cancelled, engine, accepts)
  {
    if !Admissible(q) {
      return Err(InvalidRequest), [];
    }
    var done, selected;
    done, r, selected, log := Prefill(q, cancelled, engine, accepts);
    if !done {
      r, log := Decode(q, log, r.value, selected, cancelled, engine, accepts);
    }
  }
}

/** Engine calls on a session, updating it in place: one decode step, one prefill chunk, and the
    commit they share. Every device answer is arbitrary. */
module SessionSteps {
  import opened Wrappers
  import opened SessionState

  const EVENT_SERVICE_WINDOW: nat := 4
  const FULL_RESIDENCY: nat := 512

  datatype SessionError =
    | WrongOwner | Incomplete | ContextLimit | LayerDiffers | PleDiffers | LayerCounts | LookupFailed | DeviceFailed
    | LayerTypes | DemandFailed | Unserviced | NotAdvanced | PleNotExecuted | CommitRejected | ChunkSize | BadToken
    | TokensDiffer | EmptySpan | SpansDiffer | StaleLogits | LogitsShape | NoLogits | NonFiniteLogits

  datatype Engine = Engine(maxContext: nat, expertCapacity: nat, gdn: seq<bool>, pleIndex: nat, prefillWidth: nat)

  /** What the device, the embedding tables and the expert stores answer during one call. */
  datatype Answers = Answers(
    owned: bool, growth: bool, lookup: bool, ple: bool, head: bool, complete: bool,
    encode: nat -> (Outcome, Outcome), service: nat -> Option<nat>, publish: nat -> (bool, bool), routes: nat -> nat)

  /** Owner control during a wide prefill: cancellation polls, and boundary checks that fall due. */
  datatype Control = Control(cancelled: nat -> bool, due: nat -> bool, boundary: nat -> bool)

  datatype GenerationStep = GenerationStep(changedRoutes: nat, frontier: nat)

  function Min(a: nat, b: nat): nat { if a < b then a else b }

  // ----- expert demands

  /** A layer's expert demand is put on the stream, and later serviced by the owner. */
  datatype DemandEvent = Enqueued(layer: nat) | Serviced(layer: nat)

  function NumEnqueued(log: seq<DemandEvent>): nat {
    if log == [] then 0 else NumEnqueued(log[..|log| - 1]) + (if log[|log| - 1].Enqueued? then 1 else 0)
  }

  function NumServiced(log: seq<DemandEvent>): nat {
    if log == [] then 0 else NumServiced(log[..|log| - 1]) + (if log[|log| - 1].Serviced? then 1 else 0)
  }

  /** Demands are enqueued and serviced in layer order, each service after its enqueue, and never
      more than a window of them stands unserviced. */
  ghost predicate InWindow(log: seq<DemandEvent>, window: nat) {
    log == [] ||
    var before := log[..|log| - 1];
    && InWindow(before, window)
    && NumServiced(log) <= NumEnqueued(log) <= NumServiced(log) + window
    && match log[|log| - 1]
       case Enqueued(i) => i == NumEnqueued(before)
       case Serviced(i) => i == NumServiced(before)
  }

  lemma Demand(log: seq<DemandEvent>, window: nat, e: DemandEvent)
    requires InWindow(log, window)
    requires e.Enqueued? ==> e.layer == NumEnqueued(log) < NumServiced(log) + window
    requires e.Serviced? ==> e.layer == NumServiced(log) < NumEnqueued(log)
    ensures InWindow(log + [e], window)
    ensures NumEnqueued(log + [e]) == NumEnqueued(log) + (if e.Enqueued? then 1 else 0)
    ensures NumServiced(log + [e]) == NumServiced(log) + (if e.Serviced? then 1 else 0)
  {
    assert (log + [e])[..|log|] == log;
  }

  /** In such a log each serviced layer is serviced exactly once, after it was enqueued. */
  lemma {:induction false} ServicedOnce(log: seq<DemandEvent>, window: nat, layer: nat) returns (at: nat)
    requires InWindow(log, window) && layer < NumServiced(log)
    ensures at < |log| && log[at] == Serviced(layer)
    ensures forall k :: 0 <= k < |log| && log[k] == Serviced(layer) ==> k == at
    ensures exists k :: 0 <= k < at && log[k] == Enqueued(layer)
  {
    var before, last := log[..|log| - 1], log[|log| - 1];
    if layer < NumServiced(before) {
      at := ServicedOnce(before, window, layer);
      assert log[at] == before[at];
      forall k | 0 <= k < |log| && log[k] == Serviced(layer) ensures k == at {
        if k < |before| { assert before[k] == log[k]; }
      }
      var k :| 0 <= k < at && before[k] == Enqueued(layer);
      assert log[k] == Enqueued(layer);
    } else {
      at := |before|;
      NotYetServiced(before, window, layer);
      var k := EnqueuedAt(before, window, layer);
      assert log[k] == Enqueued(layer);
    }
  }

  lemma {:induction false} NotYetServiced(log: seq<DemandEvent>, window: nat, layer: nat)
    requires InWindow(log, window) && layer >= NumServiced(log)
    ensures forall k :: 0 <= k < |log| ==> log[k] != Serviced(layer)
  {
    if log != [] {
      NotYetServiced(log[..|log| - 1], window, layer);
      forall k | 0 <= k < |log| ensures log[k] != Serviced(layer) {
        if k < |log| - 1 { assert log[k] == log[..|log| - 1][k]; }
      }
    }
  }

  lemma {:induction false} EnqueuedAt(log: seq<DemandEvent>, window: nat, layer: nat) returns (at: nat)
    requires InWindow(log, window) && layer < NumEnqueued(log)
    ensures at < |log| && log[at] == Enqueued(layer)
  {
    var before := log[..|log| - 1];
    if layer < NumEnqueued(before) {
      at := EnqueuedAt(before, window, layer);
    } else {
      at := |before|;
    }
  }

  // ----- layers in progress

  ghost predicate EncodedOrNot(l: LayerState, encoded: bool, frontier: nat, next: nat) {
    if encoded then Encoded(l, next) else LayerFrontier(l) == Some(frontier)
  }

  /** The first layers carry an encoded update to `next`; the rest stand at the old frontier. */
  ghost predicate EncodedUpTo(layers: seq<LayerState>, n: nat, frontier: nat, next: nat) {
    n <= |layers| && forall k :: 0 <= k < |layers| ==> EncodedOrNot(layers[k], k < n, frontier, next)
  }

  ghost predicate PublishedUpTo(layers: seq<LayerState>, n: nat, next: nat) {
    && n <= |layers|
    && (forall k :: 0 <= k < n ==> LayerFrontier(layers[k]) == Some(next))
    && (forall k :: n <= k < |layers| ==> Encoded(layers[k], next))
  }

  /** The layers of a window so far: their demands are on the stream, or their routes are counted. */
  ghost predicate Accounted(event: bool, start: nat, index: nat, a: Answers, log: seq<DemandEvent>, changed: nat) {
    && InWindow(log, EVENT_SERVICE_WINDOW)
    && (event ==> NumServiced(log) == start && NumEnqueued(log) == index && changed == 0)
    && (!event ==> RoutesChanged(a, false, start) + changed == RoutesChanged(a, false, index))
  }

  // ----- when a call succeeds

  /** Which layers are recurrent; the others hold an index and a key-value cache. */
  ghost function Kinds(layers: seq<LayerState>): (kinds: seq<bool>)
    ensures |kinds| == |layers|
  {
    seq(|layers|, k requires 0 <= k < |layers| => layers[k].Gdn?)
  }

  /** A layer's update is encoded: its state is of the engine's kind, each of its caches takes the
      update, and so does PLE where this layer declares it. */
  ghost predicate Encodes(kinds: seq<bool>, k: nat, e: Engine, a: Answers) {
    && k < |kinds| && k < |e.gdn| && kinds[k] == e.gdn[k]
    && (k == e.pleIndex ==> a.ple)
    && a.encode(k).0.Done? && (!kinds[k] ==> a.encode(k).1.Done?)
  }

  ghost predicate AllEncode(kinds: seq<bool>, first: nat, last: nat, e: Engine, a: Answers) {
    forall k: nat :: first <= k < last ==> Encodes(kinds, k, e, a)
  }

  lemma OneMoreEncodes(kinds: seq<bool>, first: nat, index: nat, last: nat, e: Engine, a: Answers)
    requires first <= index < last && AllEncode(kinds, first, index, e, a)
    ensures if Encodes(kinds, index, e, a) then AllEncode(kinds, first, index + 1, e, a) else !AllEncode(kinds, first, last, e, a)
  {
  }

  /** The PLE history after a token, if its layer has run. */
  function PleAfter(p: Ple, token: Token, ran: bool): Ple {
    if ran then AdvancePle(p, [token]) else p
  }

  ghost predicate AllServiced(first: nat, last: nat, a: Answers) {
    forall k: nat :: first <= k < last ==> a.service(k).Some?
  }

  ghost predicate Publishes(kinds: seq<bool>, k: nat, a: Answers) {
    k < |kinds| && a.publish(k).0 && (!kinds[k] ==> a.publish(k).1)
  }

  ghost predicate AllPublish(kinds: seq<bool>, n: nat, a: Answers) {
    forall k: nat :: k < n ==> Publishes(kinds, k, a)
  }

  ghost predicate KnownTokens(tokens: seq<Token>) {
    forall k :: 0 <= k < |tokens| ==> tokens[k] < VOCABULARY
  }

  /** Everything encoded is completed, published and fit to commit. */
  ghost predicate Settles(s: Session, tokens: seq<Token>, e: Engine, a: Answers) {
    && a.complete && AllPublish(Kinds(s.layers), |s.layers|, a) && e.pleIndex < |s.layers|
    && KnownTokens(tokens) && s.deviceLogitsBytes == LOGITS_BYTES
  }

  /** A step may begin: the session is this engine's, valid, in step with itself and below the
      context limit, its layers can be the engine's, and the token's embedding is there. */
  ghost predicate StepAdmitted(s: Session, e: Engine, a: Answers) {
    && a.owned && s.valid && s.frontier < e.maxContext && LayersAt(s.layers, s.frontier)
    && s.ple.offset == s.frontier && |s.layers| == |e.gdn| > 0 && a.lookup
  }

  ghost predicate StepRuns(s: Session, token: Token, e: Engine, a: Answers, event: bool) {
    && AllEncode(Kinds(s.layers), 0, |s.layers|, e, a) && a.head
    && (event ==> AllServiced(0, |s.layers|, a))
    && Settles(s, [token], e, a)
  }

  ghost predicate ChunkAdmitted(s: Session, tokens: seq<Token>, e: Engine, a: Answers) {
    && a.owned && s.valid && s.frontier + |tokens| <= e.maxContext && LayersAt(s.layers, s.frontier)
    && s.ple.offset == s.frontier && KnownTokens(tokens)
  }

  /** After a layer the owner lets the chunk go on: it does not cancel, and a boundary check that
      falls due passes and is not followed by a cancellation. */
  predicate GoesOn(control: Option<Control>, k: nat) {
    control.None? ||
    (!control.value.cancelled(2 * k)
     && (control.value.due(k) ==> control.value.boundary(k) && !control.value.cancelled(2 * k + 1)))
  }

  predicate Cancels(control: Option<Control>, k: nat) {
    control.Some? &&
    (control.value.cancelled(2 * k)
     || (control.value.due(k) && control.value.boundary(k) && control.value.cancelled(2 * k + 1)))
  }

  /** The first layers are encoded, and the owner lets the chunk go on after each. */
  ghost predicate Uninterrupted(kinds: seq<bool>, n: nat, e: Engine, a: Answers, control: Option<Control>) {
    AllEncode(kinds, 0, n, e, a) && forall k: nat :: k < n ==> GoesOn(control, k)
  }

  ghost predicate CancelledAt(kinds: seq<bool>, k: nat, e: Engine, a: Answers, control: Option<Control>) {
    Uninterrupted(kinds, k, e, a, control) && Encodes(kinds, k, e, a) && Cancels(control, k)
  }

  ghost predicate WasCancelled(kinds: seq<bool>, e: Engine, a: Answers, control: Option<Control>) {
    exists k: nat :: CancelledAt(kinds, k, e, a, control)
  }

  /** What becomes of a chunk at its next layer. */
  lemma ChunkAt(kinds: seq<bool>, index: nat, e: Engine, a: Answers, control: Option<Control>)
    requires index < |kinds| && Uninterrupted(kinds, index, e, a, control)
    ensures var encodes := Encodes(kinds, index, e, a);
            && (encodes && GoesOn(control, index) ==> Uninterrupted(kinds, index + 1, e, a, control))
            && (encodes && Cancels(control, index) ==> WasCancelled(kinds, e, a, control))
            && (!(encodes && Cancels(control, index)) && !(encodes && GoesOn(control, index)) ==> !WasCancelled(kinds, e, a, control))
            && (!(encodes && GoesOn(control, index)) ==> !Uninterrupted(kinds, |kinds|, e, a, control))
  {
    if Encodes(kinds, index, e, a) && Cancels(control, index) {
      assert CancelledAt(kinds, index, e, a, control);
    } else if !(Encodes(kinds, index, e, a) && GoesOn(control, index)) {
      forall k: nat ensures !CancelledAt(kinds, k, e, a, control) {
        if k < index {
          assert GoesOn(control, k);
        } else if k > index {
          NotPassed(kinds, index, k, e, a, control);
        }
      }
    }
  }

  lemma NotPassed(kinds: seq<bool>, index: nat, k: nat, e: Engine, a: Answers, control: Option<Control>)
    requires index < k && !(Encodes(kinds, index, e, a) && GoesOn(control, index))
    ensures !Uninterrupted(kinds, k, e, a, control)
  {
  }

  lemma NeverCancelled(kinds: seq<bool>, e: Engine, a: Answers, control: Option<Control>)
    requires Uninterrupted(kinds, |kinds|, e, a, control)
    ensures !WasCancelled(kinds, e, a, control)
  {
    forall k: nat ensures !CancelledAt(kinds, k, e, a, control) {
      if k < |kinds| {
        assert GoesOn(control, k);
      }
    }
  }

  ghost predicate CancelledChunk(s: Session, e: Engine, a: Answers, control: Option<Control>) {
    a.lookup && WasCancelled(Kinds(s.layers), e, a, control)
  }

  ghost predicate ChunkRuns(s: Session, tokens: seq<Token>, e: Engine, a: Answers, control: Option<Control>) {
    && a.lookup && Uninterrupted(Kinds(s.layers), |s.layers|, e, a, control) && a.head
    && Settles(s, tokens, e, a)
  }

  class LiveSession {
    var frontier: nat
    var valid: bool
    var layers: seq<LayerState>
    var ple: Ple
    const eos: Token
    var consumedTokens: seq<Token>
    var producerSpans: seq<ProducerSpan>
    var logits: Option<seq<bv16>>
    const deviceLogitsBytes: nat

    function Value(): Session
      reads this
    {
      Session(frontier, valid, layers, ple, eos, consumedTokens, producerSpans, logits, deviceLogitsBytes)
    }

    /** A new session: nothing consumed, every layer at zero. */
    constructor (eos: Token, gdn: seq<bool>)
      ensures valid && Committed(Value()) && consumedTokens == [] && |layers| == |gdn|
    {
      this.eos := eos;
      frontier, valid, consumedTokens, producerSpans, logits := 0, true, [], [], None;
      deviceLogitsBytes := LOGITS_BYTES;
      ple := Ple((eos, eos), 0);
      layers := seq(|gdn|, k requires 0 <= k < |gdn| =>
        if gdn[k] then Gdn(Cache(0, true, None)) else Qsa(Cache(0, true, None), Cache(0, true, None)));
    }

    method CheckLayers(at: nat) returns (ok: bool)
      ensures ok <==> LayersAt(layers, at)
    {
      for k := 0 to |layers|
        invariant LayersAt(layers[..k], at)
      {
        if LayerFrontier(layers[k]) != Some(at) {
          return false;
        }
        assert layers[..k + 1] == layers[..k] + [layers[k]];
      }
      assert layers[..|layers|] == layers;
      return true;
    }

    /** The explicit consistency check accepts exactly the valid committed sessions. */
    method ValidateCommitted() returns (r: Result<(), SessionError>)
      ensures r.Ok? <==> valid && Committed(Value())
    {
      if !valid {
        return Err(Incomplete);
      }
      if |consumedTokens| != frontier {
        return Err(TokensDiffer);
      }
      var total := 0;
      for k := 0 to |producerSpans|
        invariant total == TotalWidth(producerSpans[..k]) && AllNonempty(producerSpans[..k])
      {
        if Width(producerSpans[k]) == 0 {
          return Err(EmptySpan);
        }
        assert producerSpans[..k + 1][..k] == producerSpans[..k];
        total := total + Width(producerSpans[k]);
      }
      assert producerSpans[..|producerSpans|] == producerSpans;
      if total != frontier {
        return Err(SpansDiffer);
      }
      if frontier == 0 {
        if logits.Some? {
          return Err(StaleLogits);
        }
      } else {
        if deviceLogitsBytes != LOGITS_BYTES {
          return Err(LogitsShape);
        }
        if logits.Some? && !LogitsRow(logits.value) {
          return Err(LogitsShape);
        }
      }
      if !PleCommitted(ple, consumedTokens, eos) {
        return Err(PleDiffers);
      }
      var agree := CheckLayers(frontier);
      if !agree {
        return Err(LayerDiffers);
      }
      return Ok(());
    }

    /** The logits after the last consumed token, read back from the device the first time. */
    method LastLogits(device: Option<seq<bv16>>) returns (r: Result<seq<bv16>, SessionError>)
      requires device.Some? ==> |device.value| == VOCABULARY
      modifies this`logits
      ensures r.Ok? <==> old(valid && Committed(Value()) && frontier > 0 && (logits.Some? || (device.Some? && LogitsRow(device.value))))
      ensures r.Ok? ==> LogitsRow(r.value) && r.value == (if old(logits).Some? then old(logits).value else device.value)
      ensures Value() == if r.Ok? then old(Value()).(logits := Some(r.value)) else old(Value())
      ensures old(Sound(Value())) ==> Sound(Value()) && Called(old(Value()), Value())
    {
      var committed := ValidateCommitted();
      if committed.Err? {
        return Err(committed.error);
      }
      if frontier == 0 {
        return Err(NoLogits);
      }
      if logits.None? {
        if device.None? {
          return Err(DeviceFailed);
        }
        if !LogitsRow(device.value) {
          return Err(NonFiniteLogits);
        }
        logits := device;
      }
      assert ReadsLogits(old(Value()), Value(), logits.value);
      return Ok(logits.value);
    }

    /** Commit a completed call. */
    method CommitDeviceOutput(tokens: seq<Token>, producer: ProducerSpan, next: nat) returns (r: Result<(), SessionError>)
      modifies this
      ensures r.Ok? <==> !old(valid) && Width(producer) == |tokens| && old(frontier) + |tokens| == next
                         && (forall k :: 0 <= k < |tokens| ==> tokens[k] < VOCABULARY)
                         && deviceLogitsBytes == LOGITS_BYTES
      ensures r.Err? ==> r.error in {CommitRejected, LogitsShape} && Value() == old(Value())
      ensures r.Ok? ==> Value() == old(Value()).(frontier := next, valid := true, consumed := old(consumedTokens) + tokens,
                                                 spans := Coalesce(old(producerSpans), producer), logits := None)
    {
      if valid {
        return Err(CommitRejected);
      }
      if !(Width(producer) == |tokens| && frontier + |tokens| == next && forall k :: 0 <= k < |tokens| ==> tokens[k] < VOCABULARY) {
        return Err(CommitRejected);
      }
      if deviceLogitsBytes != LOGITS_BYTES {
        return Err(LogitsShape);
      }
      consumedTokens := consumedTokens + tokens;
      logits := None;
      var n := |producerSpans|;
      if n > 0 && producerSpans[n - 1].Steps? && producer.Steps? && producer.count == 1 && producerSpans[n - 1].mode == producer.mode {
        producerSpans := producerSpans[..n - 1] + [Steps(producer.mode, producerSpans[n - 1].count + 1)];
      } else {
        producerSpans := producerSpans + [producer];
      }
      frontier := next;
      valid := true;
      return Ok(());
    }

    /** Encode one layer's update, after the PLE block when this layer declares it. */
    method EncodeOne(index: nat, tokens: seq<Token>, e: Engine, a: Answers) returns (r: Result<(), SessionError>)
      requires index < |layers| == |e.gdn| && EncodedUpTo(layers, index, frontier, frontier + |tokens|)
      modifies this`layers, this`ple
      ensures r.Ok? ==> EncodedUpTo(layers, index + 1, frontier, frontier + |tokens|)
      ensures r.Ok? ==> ple == if index == e.pleIndex then AdvancePle(old(ple), tokens) else old(ple)
      ensures Kinds(layers) == old(Kinds(layers))
      ensures r.Ok? <==> Encodes(Kinds(layers), index, e, a)
      ensures r.Err? ==> Possible(r.error)
    {
      if index == e.pleIndex {
        if !a.ple {
          return Err(DeviceFailed);
        }
        ple := AdvancePle(ple, tokens);
      }
      if layers[index].Gdn? != e.gdn[index] {
        return Err(LayerTypes);
      }
      EncodeThenPublish(layers[index], frontier, |tokens|, a.encode(index), a.publish(index));
      var (encoded, done) := EncodeLayer(layers[index], |tokens|, a.encode(index));
      layers := layers[index := encoded];
      if !done {
        return Err(DeviceFailed);
      }
      return Ok(());
    }

    /** Publish every encoded layer after the stream has completed. */
    method PublishLayers(next: nat, a: Answers) returns (ok: bool)
      requires EncodedUpTo(layers, |layers|, frontier, next)
      modifies this`layers
      ensures |layers| == old(|layers|)
      ensures ok ==> LayersAt(layers, next)
      ensures Kinds(layers) == old(Kinds(layers))
      ensures ok <==> AllPublish(Kinds(layers), |layers|, a)
    {
      for k := 0 to |layers|
        invariant |layers| == old(|layers|) && PublishedUpTo(layers, k, next)
        invariant Kinds(layers) == old(Kinds(layers)) && AllPublish(Kinds(layers), k, a)
      {
        var (published, done) := PublishLayer(layers[k], a.publish(k));
        layers := layers[k := published];
        assert done <==> Publishes(Kinds(layers), k, a);
        if !done {
          return false;
        }
      }
      return true;
    }

    /** Service the demands of some layers, in order. */
    method ServiceDemands(first: nat, last: nat, a: Answers, before: seq<DemandEvent>) returns (r: Result<nat, SessionError>, log: seq<DemandEvent>)
      requires first <= last
      requires InWindow(before, EVENT_SERVICE_WINDOW) && NumServiced(before) == first && NumEnqueued(before) == last
      ensures InWindow(log, EVENT_SERVICE_WINDOW) && NumEnqueued(log) == last
      ensures r.Ok? ==> NumServiced(log) == last
                        && RoutesChanged(a, true, first) + r.value == RoutesChanged(a, true, last)
      ensures r.Ok? <==> AllServiced(first, last, a)
      ensures r.Err? ==> Possible(r.error)
    {
      log := before;
      var changed: nat := 0;
      for index := first to last
        invariant InWindow(log, EVENT_SERVICE_WINDOW) && NumEnqueued(log) == last && NumServiced(log) == index
        invariant RoutesChanged(a, true, first) + changed == RoutesChanged(a, true, index) && AllServiced(first, index, a)
      {
        var serviced := a.service(index);
        if serviced.None? {
          return Err(DemandFailed), log;
        }
        changed := changed + serviced.value;
        log := Service(log, index);
      }
      return Ok(changed), log;
    }

    /** Encode one window of layers. */
    method EncodeWindow(start: nat, end: nat, token: Token, e: Engine, a: Answers, event: bool, before: seq<DemandEvent>)
      returns (r: Result<nat, SessionError>, log: seq<DemandEvent>)
      requires start <= end <= |layers| == |e.gdn| && EncodedUpTo(layers, start, frontier, frontier + 1)
      requires Accounted(event, start, start, a, before, 0) && (event ==> end - start <= EVENT_SERVICE_WINDOW)
      modifies this`layers, this`ple
      ensures |layers| == old(|layers|)
      ensures InWindow(log, EVENT_SERVICE_WINDOW) && (!event ==> log == before)
      ensures r.Ok? ==> EncodedUpTo(layers, end, frontier, frontier + 1)
      ensures r.Ok? ==> ple == PleAfter(old(ple), token, start <= e.pleIndex < end)
      ensures r.Ok? ==> Accounted(event, start, end, a, log, r.value)
      ensures Kinds(layers) == old(Kinds(layers))
      ensures r.Ok? <==> AllEncode(Kinds(layers), start, end, e, a)
      ensures r.Err? ==> Possible(r.error)
    {
      log := before;
      var changed: nat := 0;
      ghost var kinds, was := Kinds(layers), ple;
      for index := start to end
        invariant EncodedUpTo(layers, index, frontier, frontier + 1)
        invariant Kinds(layers) == kinds && AllEncode(kinds, start, index, e, a)
        invariant ple == PleAfter(was, token, start <= e.pleIndex < index)
        invariant Accounted(event, start, index, a, log, changed) && (!event ==> log == before)
      {
        var encoded;
        encoded, log, changed := EncodeNext(index, start, token, e, a, event, log, changed);
        OneMoreEncodes(kinds, start, index, end, e, a);
        if encoded.Err? {
          return Err(encoded.error), log;
        }
      }
      return Ok(changed), log;
    }

    /** Encode one layer of a window and account for it. */
    method EncodeNext(index: nat, ghost start: nat, token: Token, e: Engine, a: Answers, event: bool, before: seq<DemandEvent>, sofar: nat)
      returns (r: Result<(), SessionError>, log: seq<DemandEvent>, changed: nat)
      requires index < |layers| == |e.gdn| && EncodedUpTo(layers, index, frontier, frontier + 1)
      requires Accounted(event, start, index, a, before, sofar) && (event ==> start <= index < start + EVENT_SERVICE_WINDOW)
      modifies this`layers, this`ple
      ensures Kinds(layers) == old(Kinds(layers))
      ensures r.Ok? <==> Encodes(Kinds(layers), index, e, a)
      ensures r.Ok? ==> EncodedUpTo(layers, index + 1, frontier, frontier + 1)
      ensures r.Ok? ==> ple == PleAfter(old(ple), token, index == e.pleIndex)
      ensures r.Ok? ==> Accounted(event, start, index + 1, a, log, changed)
      ensures InWindow(log, EVENT_SERVICE_WINDOW) && (!event ==> log == before)
      ensures r.Err? ==> Possible(r.error)
    {
      log, changed := before, sofar;
      r := EncodeOne(index, [token], e, a);
      if r.Ok? {
        log, changed := Account(event, index, a, start, log, changed);
      }
    }

    /** A layer that ran reports its routes at once, or puts its demand on the stream. */
    method Account(event: bool, index: nat, a: Answers, ghost start: nat, before: seq<DemandEvent>, sofar: nat)
      returns (log: seq<DemandEvent>, changed: nat)
      requires Accounted(event, start, index, a, before, sofar)
      requires event ==> start <= index < start + EVENT_SERVICE_WINDOW
      ensures Accounted(event, start, index + 1, a, log, changed) && (!event ==> log == before)
    {
      log, changed := before, sofar;
      if event {
        log := Enqueue(log, index);
      } else {
        changed := changed + a.routes(index);
      }
    }

    method Service(before: seq<DemandEvent>, layer: nat) returns (log: seq<DemandEvent>)
      requires InWindow(before, EVENT_SERVICE_WINDOW) && layer == NumServiced(before) < NumEnqueued(before)
      ensures InWindow(log, EVENT_SERVICE_WINDOW)
      ensures NumEnqueued(log) == NumEnqueued(before) && NumServiced(log) == NumServiced(before) + 1
    {
      Demand(before, EVENT_SERVICE_WINDOW, Serviced(layer));
      log := before + [Serviced(layer)];
    }

    method Enqueue(before: seq<DemandEvent>, layer: nat) returns (log: seq<DemandEvent>)
      requires InWindow(before, EVENT_SERVICE_WINDOW) && layer == NumEnqueued(before) < NumServiced(before) + EVENT_SERVICE_WINDOW
      ensures InWindow(log, EVENT_SERVICE_WINDOW)
      ensures NumEnqueued(log) == NumEnqueued(before) + 1 && NumServiced(log) == NumServiced(before)
    {
      Demand(before, EVENT_SERVICE_WINDOW, Enqueued(layer));
      log := before + [Enqueued(layer)];
    }

    /** Encode every layer in windows, servicing each window's demands before the next is encoded
        when there is more than one. */
    method EncodeGraph(token: Token, e: Engine, a: Answers, event: bool)
      returns (r: Result<nat, SessionError>, log: seq<DemandEvent>)
      requires |layers| == |e.gdn| > 0 && LayersAt(layers, frontier)
      modifies this`layers, this`ple
      ensures |layers| == old(|layers|)
      ensures InWindow(log, EVENT_SERVICE_WINDOW) && (!event ==> log == [])
      ensures r.Ok? ==> EncodedUpTo(layers, |layers|, frontier, frontier + 1)
      ensures r.Ok? ==> ple == if e.pleIndex < |layers| then AdvancePle(old(ple), [token]) else old(ple)
      ensures r.Ok? && event ==>
                && NumEnqueued(log) == |layers|
                && (EVENT_SERVICE_WINDOW < |layers| ==> NumServiced(log) == |layers| && r.value == RoutesChanged(a, true, |layers|))
                && (EVENT_SERVICE_WINDOW >= |layers| ==> NumServiced(log) == 0 && r.value == 0)
      ensures r.Ok? && !event ==> r.value == RoutesChanged(a, false, |layers|)
      ensures Kinds(layers) == old(Kinds(layers))
      ensures r.Ok? <==> AllEncode(Kinds(layers), 0, |layers|, e, a) &&
                         (event && EVENT_SERVICE_WINDOW < |layers| ==> AllServiced(0, |layers|, a))
      ensures r.Err? ==> Possible(r.error)
    {
      var window := if event then Min(EVENT_SERVICE_WINDOW, |layers|) else |layers|;
      var start, changed: nat := 0, 0;
      log := [];
      while start < |layers|
        invariant |layers| == old(|layers|) && start <= |layers| && EncodedUpTo(layers, start, frontier, frontier + 1)
        invariant Kinds(layers) == old(Kinds(layers)) && AllEncode(Kinds(layers), 0, start, e, a)
        invariant event && window < |layers| ==> AllServiced(0, start, a)
        invariant ple == if e.pleIndex < start then AdvancePle(old(ple), [token]) else old(ple)
        invariant InWindow(log, EVENT_SERVICE_WINDOW) && (!event ==> log == [])
        invariant event ==> NumEnqueued(log) == start
        invariant event && window < |layers| ==> NumServiced(log) == start && changed == RoutesChanged(a, true, start)
        invariant event && window == |layers| ==> NumServiced(log) == 0 && changed == 0 && (start == 0 || start == |layers|)
        invariant !event ==> changed == RoutesChanged(a, false, start)
      {
        var end := Min(start + window, |layers|);
        var encoded, serviced;
        encoded, log := EncodeWindow(start, end, token, e, a, event, log);
        if encoded.Err? {
          return Err(encoded.error), log;
        }
        changed := changed + encoded.value;
        if event && window < |layers| {
          serviced, log := ServiceDemands(start, end, a, log);
          if serviced.Err? {
            return Err(serviced.error), log;
          }
          changed := changed + serviced.value;
        }
        start := end;
      }
      return Ok(changed), log;
    }

    /** The checks a step makes before it touches the session. */
    method AdmitStep(e: Engine, a: Answers) returns (r: Result<(), SessionError>)
      ensures r.Ok? <==> StepAdmitted(Value(), e, a)
      ensures r.Err? ==> Possible(r.error)
    {
      if !a.owned {
        return Err(WrongOwner);
      }
      if !valid {
        return Err(Incomplete);
      }
      if frontier >= e.maxContext {
        return Err(ContextLimit);
      }
      var agree := CheckLayers(frontier);
      if !agree {
        return Err(LayerDiffers);
      }
      if ple.offset != frontier {
        return Err(PleDiffers);
      }
      if |e.gdn| == 0 || |e.gdn| != |layers| {
        return Err(LayerCounts);
      }
      if !a.lookup {
        return Err(LookupFailed);
      }
      return Ok(());
    }

    /** Encode, service, settle and commit a step of an invalidated session. */
    method RunStep(token: Token, mode: RoutingMode, e: Engine, a: Answers, event: bool)
      returns (r: Result<GenerationStep, SessionError>, log: seq<DemandEvent>)
      requires !valid && |layers| == |e.gdn| > 0 && LayersAt(layers, frontier) && ple.offset == frontier
      modifies this
      ensures |layers| == old(|layers|)
      ensures r.Ok? <==> StepRuns(old(Value()), token, e, a, event)
      ensures r.Err? ==> !valid && Possible(r.error)
      ensures InWindow(log, EVENT_SERVICE_WINDOW) && (!event ==> log == [])
      ensures r.Ok? ==> (event ==> NumServiced(log) == NumEnqueued(log) == |layers|)
                        && r.value == GenerationStep(RoutesChanged(a, event, |layers|), frontier)
      ensures r.Ok? ==> LayersAt(layers, frontier) && token < VOCABULARY && deviceLogitsBytes == LOGITS_BYTES
      ensures r.Ok? ==> Value() == old(Value()).(frontier := old(frontier) + 1, valid := true, layers := layers,
                                                 ple := AdvancePle(old(ple), [token]), consumed := old(consumedTokens) + [token],
                                                 spans := Coalesce(old(producerSpans), Steps(mode, 1)), logits := None)
    {
      var encoded;
      encoded, log := EncodeGraph(token, e, a, event);
      if encoded.Err? {
        return Err(encoded.error), log;
      }
      var changed := encoded.value;
      if !a.head {
        return Err(DeviceFailed), log;
      }
      if event {
        var serviced;
        serviced, log := ServiceRest(changed, a, log);
        if serviced.Err? {
          return Err(serviced.error), log;
        }
        changed := serviced.value;
      }
      var done := Settle([token], Steps(mode, 1), e, a);
      if done.Err? {
        return Err(done.error), log;
      }
      return Ok(GenerationStep(changed, frontier)), log;
    }

    /** Service the demands of a single window, and check that none is left. */
    method ServiceRest(changed: nat, a: Answers, before: seq<DemandEvent>) returns (r: Result<nat, SessionError>, log: seq<DemandEvent>)
      requires InWindow(before, EVENT_SERVICE_WINDOW) && NumEnqueued(before) == |layers|
      requires EVENT_SERVICE_WINDOW < |layers| ==> NumServiced(before) == |layers| && changed == RoutesChanged(a, true, |layers|)
      requires EVENT_SERVICE_WINDOW >= |layers| ==> NumServiced(before) == 0 && changed == 0
      ensures InWindow(log, EVENT_SERVICE_WINDOW)
      ensures r.Err? ==> Possible(r.error)
      ensures r.Ok? ==> NumServiced(log) == NumEnqueued(log) == |layers| && r.value == RoutesChanged(a, true, |layers|)
      ensures r.Ok? <==> (EVENT_SERVICE_WINDOW >= |layers| ==> AllServiced(0, |layers|, a))
    {
      log := before;
      r := Ok(changed);
      if |layers| <= EVENT_SERVICE_WINDOW {
        r, log := ServiceDemands(0, |layers|, a, log);
        if r.Err? {
          return;
        }
      }
      if !(NumServiced(log) == NumEnqueued(log) == |layers|) {
        return Err(Unserviced), log;
      }
    }

    /** Consume one token. Before anything is encoded the session is marked invalid, and only a
        complete commit marks it valid again. */
    method StepInner(token: Token, mode: RoutingMode, e: Engine, a: Answers)
      returns (r: Result<GenerationStep, SessionError>, log: seq<DemandEvent>)
      requires Sound(Value())
      modifies this
      ensures Sound(Value()) && Called(old(Value()), Value())
      ensures !old(valid) ==> r.Err?
      ensures r.Ok? ==> Extends(old(Value()), Value(), [token], Steps(mode, 1)) && frontier <= e.maxContext
      ensures r.Ok? <==> StepAdmitted(old(Value()), e, a) &&
                         StepRuns(old(Value()), token, e, a, e.expertCapacity < FULL_RESIDENCY && !a.growth)
      ensures r.Err? ==> Possible(r.error)
      ensures !StepAdmitted(old(Value()), e, a) ==> Value() == old(Value())
      ensures StepAdmitted(old(Value()), e, a) && r.Err? ==> !valid
      ensures InWindow(log, EVENT_SERVICE_WINDOW)
      ensures var event := e.expertCapacity < FULL_RESIDENCY && !a.growth;
              && (!event ==> log == [])
              && (r.Ok? && event ==> NumServiced(log) == NumEnqueued(log) == |layers|)
              && (r.Ok? ==> r.value == GenerationStep(RoutesChanged(a, event, |layers|), frontier))
    {
      log := [];
      var admitted := AdmitStep(e, a);
      if admitted.Err? {
        return Err(admitted.error), log;
      }
      valid := false;
      r, log := RunStep(token, mode, e, a, e.expertCapacity < FULL_RESIDENCY && !a.growth);
      if r.Ok? {
        assert Extends(old(Value()), Value(), [token], Steps(mode, 1));
        ExtendsSound(old(Value()), Value(), [token], Steps(mode, 1));
      }
    }

    /** Wait for the stream, publish every layer, check that all advanced, and commit. */
    method Settle(tokens: seq<Token>, producer: ProducerSpan, e: Engine, a: Answers) returns (r: Result<(), SessionError>)
      requires !valid && tokens != [] && Width(producer) == |tokens|
      requires EncodedUpTo(layers, |layers|, frontier, frontier + |tokens|)
      modifies this
      ensures |layers| == old(|layers|)
      ensures r.Ok? <==> Settles(old(Value()), tokens, e, a) && old(ple.offset == frontier + |tokens|)
      ensures r.Err? ==> !valid && Possible(r.error)
      ensures r.Ok? ==> e.pleIndex < |layers| && LayersAt(layers, frontier) && forall k :: 0 <= k < |tokens| ==> tokens[k] < VOCABULARY
      ensures r.Ok? ==> ple.offset == frontier && deviceLogitsBytes == LOGITS_BYTES
      ensures r.Ok? ==> Value() == old(Value()).(frontier := old(frontier) + |tokens|, valid := true, layers := layers,
                                                 consumed := old(consumedTokens) + tokens,
                                                 spans := Coalesce(old(producerSpans), producer), logits := None)
    {
      if !a.complete {
        return Err(DeviceFailed);
      }
      var next := frontier + |tokens|;
      var published := PublishLayers(next, a);
      if !published {
        return Err(DeviceFailed);
      }
      var advanced := CheckLayers(next);
      if !advanced {
        return Err(NotAdvanced);
      }
      if e.pleIndex >= |layers| {
        return Err(PleNotExecuted);
      }
      if ple.offset != next {
        return Err(PleDiffers);
      }
      r := CommitDeviceOutput(tokens, producer, next);
    }

    /** Encode the layers of a chunk, giving the owner control between them; false when cancelled. */
    method EncodeChunk(tokens: seq<Token>, e: Engine, a: Answers, control: Option<Control>) returns (r: Result<bool, SessionError>)
      requires |layers| == |e.gdn| && LayersAt(layers, frontier)
      modifies this`layers, this`ple
      ensures |layers| == old(|layers|)
      ensures r.Err? ==> Possible(r.error)
      ensures r == Ok(true) ==> EncodedUpTo(layers, |layers|, frontier, frontier + |tokens|)
      ensures r == Ok(true) ==> ple == if e.pleIndex < |layers| then AdvancePle(old(ple), tokens) else old(ple)
      ensures Kinds(layers) == old(Kinds(layers))
      ensures r == Ok(true) <==> Uninterrupted(Kinds(layers), |layers|, e, a, control)
      ensures r == Ok(false) <==> WasCancelled(Kinds(layers), e, a, control)
    {
      ghost var kinds := Kinds(layers);
      for index := 0 to |layers|
        invariant EncodedUpTo(layers, index, frontier, frontier + |tokens|)
        invariant Kinds(layers) == kinds && Uninterrupted(kinds, index, e, a, control)
        invariant ple == if e.pleIndex < index then AdvancePle(old(ple), tokens) else old(ple)
      {
        ChunkAt(kinds, index, e, a, control);
        var encoded := EncodeOne(index, tokens, e, a);
        if encoded.Err? {
          return Err(encoded.error);
        }
        var goesOn := AskOwner(control, index);
        if goesOn != Ok(true) {
          return goesOn;
        }
      }
      NeverCancelled(kinds, e, a, control);
      return Ok(true);
    }

    /** Between two layers of a chunk: poll for cancellation, and if a boundary check falls due make it
        and poll again. */
    method AskOwner(control: Option<Control>, index: nat) returns (r: Result<bool, SessionError>)
      ensures r == Ok(true) <==> GoesOn(control, index)
      ensures r == Ok(false) <==> Cancels(control, index)
      ensures r.Err? ==> Possible(r.error)
    {
      if control.None? {
        return Ok(true);
      }
      if control.value.cancelled(2 * index) {
        return Ok(false);
      }
      if control.value.due(index) {
        if !control.value.boundary(index) {
          return Err(DeviceFailed);
        }
        if control.value.cancelled(2 * index + 1) {
          return Ok(false);
        }
      }
      return Ok(true);
    }

    method AdmitChunk(tokens: seq<Token>, e: Engine, a: Answers) returns (r: Result<(), SessionError>)
      ensures r.Ok? <==> ChunkAdmitted(Value(), tokens, e, a)
      ensures r.Err? ==> Possible(r.error)
    {
      if !a.owned {
        return Err(WrongOwner);
      }
      if !valid {
        return Err(Incomplete);
      }
      if frontier + |tokens| > e.maxContext {
        return Err(ContextLimit);
      }
      if !(forall k :: 0 <= k < |tokens| ==> tokens[k] < VOCABULARY) {
        return Err(BadToken);
      }
      if ple.offset != frontier {
        return Err(PleDiffers);
      }
      var agree := CheckLayers(frontier);
      if !agree {
        return Err(LayerDiffers);
      }
      return Ok(());
    }

    /** Consume a chunk of prompt tokens; a single token is a step. A cancelled chunk, None, leaves
        the session invalid just as a failed one does. */
    method PrefillChunkInner(tokens: seq<Token>, e: Engine, a: Answers, control: Option<Control>)
      returns (r: Result<Option<GenerationStep>, SessionError>, log: seq<DemandEvent>)
      requires Sound(Value()) && (a.owned ==> |layers| == |e.gdn|)
      modifies this
      ensures Sound(Value()) && Called(old(Value()), Value())
      ensures !old(valid) ==> r.Err?
      ensures r.Ok? && r.value.Some? ==>
                && Extends(old(Value()), Value(), tokens, if |tokens| == 1 then Steps(Unbiased, 1) else Prefill(|tokens|))
                && r.value.value.frontier == frontier <= e.maxContext && |tokens| <= e.prefillWidth
      ensures r == Ok(None) ==> !valid
      ensures r.Err? ==> Possible(r.error) && (!valid || Value() == old(Value()))
      ensures tokens == [] || |tokens| > e.prefillWidth ==> r.Err? && Value() == old(Value())
      ensures 1 == |tokens| <= e.prefillWidth ==>
                && (r.Ok? <==> StepAdmitted(old(Value()), e, a) &&
                               StepRuns(old(Value()), tokens[0], e, a, e.expertCapacity < FULL_RESIDENCY && !a.growth))
                && r != Ok(None)
                && (if StepAdmitted(old(Value()), e, a) then r.Err? ==> !valid else Value() == old(Value()))
      ensures 1 < |tokens| <= e.prefillWidth ==>
                && (r.Ok? && r.value.Some? <==> ChunkAdmitted(old(Value()), tokens, e, a) && ChunkRuns(old(Value()), tokens, e, a, control))
                && (r == Ok(None) <==> ChunkAdmitted(old(Value()), tokens, e, a) && CancelledChunk(old(Value()), e, a, control))
                && (if ChunkAdmitted(old(Value()), tokens, e, a) then r.Err? ==> !valid else Value() == old(Value()))
      ensures InWindow(log, EVENT_SERVICE_WINDOW)
    {
      log := [];
      if tokens == [] || |tokens| > e.prefillWidth {
        return Err(ChunkSize), log;
      }
      if |tokens| == 1 {
        var step;
        step, log := StepInner(tokens[0], Unbiased, e, a);
        assert [tokens[0]] == tokens;
        if step.Err? {
          return Err(step.error), log;
        }
        return Ok(Some(step.value)), log;
      }
      var admitted := AdmitChunk(tokens, e, a);
      if admitted.Err? {
        return Err(admitted.error), log;
      }
      valid := false;
      r := RunChunk(tokens, e, a, control);
      if r.Ok? && r.value.Some? {
        assert Extends(old(Value()), Value(), tokens, Prefill(|tokens|));
        ExtendsSound(old(Value()), Value(), tokens, Prefill(|tokens|));
      }
    }

    method RunChunk(tokens: seq<Token>, e: Engine, a: Answers, control: Option<Control>)
      returns (r: Result<Option<GenerationStep>, SessionError>)
      requires !valid && |layers| == |e.gdn| && LayersAt(layers, frontier) && tokens != [] && ple.offset == frontier
      modifies this
      ensures |layers| == old(|layers|)
      ensures r.Ok? && r.value.Some? <==> ChunkRuns(old(Value()), tokens, e, a, control)
      ensures r == Ok(None) <==> CancelledChunk(old(Value()), e, a, control)
      ensures r.Err? ==> !valid && Possible(r.error)
      ensures r == Ok(None) ==> !valid
      ensures r.Ok? && r.value.Some? ==>
                && LayersAt(layers, frontier) && r.value.value == GenerationStep(0, frontier)
                && (forall k :: 0 <= k < |tokens| ==> tokens[k] < VOCABULARY) && deviceLogitsBytes == LOGITS_BYTES
                && Value() == old(Value()).(frontier := old(frontier) + |tokens|, valid := true, layers := layers,
                                            ple := AdvancePle(old(ple), tokens), consumed := old(consumedTokens) + tokens,
                                            spans := Coalesce(old(producerSpans), Prefill(|tokens|)), logits := None)
    {
      if !a.lookup {
        return Err(LookupFailed);
      }
      var encoded := EncodeChunk(tokens, e, a, control);
      if encoded.Err? {
        return Err(encoded.error);
      }
      if !encoded.value {
        return Ok(None);
      }
      if e.pleIndex >= |layers| {
        return Err(PleNotExecuted);
      }
      if !a.head {
        return Err(DeviceFailed);
      }
      AdvancedOffset(old(ple), tokens);
      var done := Settle(tokens, Prefill(|tokens|), e, a);
      if done.Err? {
        return Err(done.error);
      }
      return Ok(Some(GenerationStep(0, frontier)));
    }

    /** Consume tokens for generation: one in any mode, several only in the unbiased one. */
    method ConsumeForGeneration(tokens: seq<Token>, mode: RoutingMode, e: Engine, a: Answers, control: Option<Control>)
      returns (r: Result<Option<GenerationStep>, SessionError>, log: seq<DemandEvent>)
      requires Sound(Value()) && (a.owned ==> |layers| == |e.gdn|)
      modifies this
      ensures Sound(Value()) && Called(old(Value()), Value())
      ensures r.Ok? && r.value.Some? ==> consumedTokens == old(consumedTokens) + tokens
                                         && r.value.value.frontier == frontier == old(frontier) + |tokens|
      ensures r.Ok? && r.value.Some? && |tokens| != 1 ==> mode == Unbiased
      ensures r.Ok? && r.value.Some? ==>
                producerSpans == Coalesce(old(producerSpans), if |tokens| == 1 then Steps(mode, 1) else Prefill(|tokens|))
      ensures r.Ok? && r.value.Some? <==>
                if |tokens| == 1 then StepAdmitted(old(Value()), e, a) &&
                                      StepRuns(old(Value()), tokens[0], e, a, e.expertCapacity < FULL_RESIDENCY && !a.growth)
                else mode == Unbiased && 1 < |tokens| <= e.prefillWidth &&
                     ChunkAdmitted(old(Value()), tokens, e, a) && ChunkRuns(old(Value()), tokens, e, a, control)
      ensures !(r.Ok? && r.value.Some?) ==> !valid || Value() == old(Value())
    {
      if |tokens| == 1 {
        var step;
        step, log := StepInner(tokens[0], mode, e, a);
        assert [tokens[0]] == tokens;
        r := if step.Ok? then Ok(Some(step.value)) else Err(step.error);
      } else if mode != Unbiased {
        return Err(ChunkSize), [];
      } else {
        r, log := PrefillChunkInner(tokens, e, a, control);
      }
    }
  }

  /** Routes a layer reports: when its demand is serviced, or else when it runs. */
  function LayerRoutes(a: Answers, event: bool, layer: nat): nat {
    if !event then a.routes(layer)
    else match a.service(layer)
      case Some(changed) => changed
      case None => 0
  }

  /** The routes changed at the first layers, each counted once. */
  function RoutesChanged(a: Answers, event: bool, n: nat): nat {
    if n == 0 then 0 else RoutesChanged(a, event, n - 1) + LayerRoutes(a, event, n - 1)
  }

  /** Errors that a step cannot end with: no demand is left unserviced and every layer advances. */
  ghost predicate Possible(e: SessionError) { e != Unserviced && e != NotAdvanced }
}

/** The committed state of an inference session: one frontier shared by the token record, the
    producer spans, the PLE history and every layer. */
module SessionState {
  import opened Wrappers
  import opened Bf16

  type Token = nat
  const VOCABULARY: nat := 248_320
  const LOGITS_BYTES: nat := 2 * VOCABULARY

  datatype RoutingMode = CachePrior | Unbiased

  // ----- producer spans

  datatype ProducerSpan = Prefill(width: nat) | Steps(mode: RoutingMode, count: nat) | Restored(tokens: nat)

  function Width(p: ProducerSpan): nat {
    match p
    case Prefill(width) => width
    case Steps(_, count) => count
    case Restored(tokens) => tokens
  }

  function TotalWidth(spans: seq<ProducerSpan>): nat {
    if spans == [] then 0 else TotalWidth(spans[..|spans| - 1]) + Width(spans[|spans| - 1])
  }

  /** A single step extends a last span of steps in the same mode; anything else is a new span. */
  function Coalesce(spans: seq<ProducerSpan>, p: ProducerSpan): seq<ProducerSpan> {
    var n := |spans|;
    if n > 0 && spans[n - 1].Steps? && p.Steps? && p.count == 1 && spans[n - 1].mode == p.mode
    then spans[..n - 1] + [Steps(p.mode, spans[n - 1].count + 1)]
    else spans + [p]
  }

  /** How one consumed token was produced. */
  datatype Origin = ByPrefill | ByStep(mode: RoutingMode) | ByRestore

  function OriginOf(p: ProducerSpan): Origin {
    match p
    case Prefill(_) => ByPrefill
    case Steps(mode, _) => ByStep(mode)
    case Restored(_) => ByRestore
  }

  function Repeated(o: Origin, n: nat): (s: seq<Origin>)
    ensures |s| == n && forall k :: 0 <= k < n ==> s[k] == o
  {
    if n == 0 then [] else Repeated(o, n - 1) + [o]
  }

  /** The origin of every token, in order. */
  function Origins(spans: seq<ProducerSpan>): (s: seq<Origin>)
    ensures |s| == TotalWidth(spans)
  {
    if spans == [] then []
    else Origins(spans[..|spans| - 1]) + Repeated(OriginOf(spans[|spans| - 1]), Width(spans[|spans| - 1]))
  }

  ghost predicate AllNonempty(spans: seq<ProducerSpan>) {
    forall k :: 0 <= k < |spans| ==> Width(spans[k]) > 0
  }

  lemma OriginsOfMore(spans: seq<ProducerSpan>, p: ProducerSpan)
    ensures Origins(spans + [p]) == Origins(spans) + Repeated(OriginOf(p), Width(p))
    ensures TotalWidth(spans + [p]) == TotalWidth(spans) + Width(p)
  {
    assert (spans + [p])[..|spans|] == spans;
  }

  lemma RepeatedMore(o: Origin, n: nat)
    ensures Repeated(o, n + 1) == Repeated(o, n) + Repeated(o, 1)
  {
    assert Repeated(o, 1) == [o];
  }

  /** Coalescing loses no token: the origins are the old ones followed by the new span's. */
  lemma CoalesceKeepsOrigins(spans: seq<ProducerSpan>, p: ProducerSpan)
    ensures Origins(Coalesce(spans, p)) == Origins(spans) + Repeated(OriginOf(p), Width(p))
    ensures TotalWidth(Coalesce(spans, p)) == TotalWidth(spans) + Width(p)
  {
    var n := |spans|;
    if n > 0 && spans[n - 1].Steps? && p.Steps? && p.count == 1 && spans[n - 1].mode == p.mode {
      var front, last := spans[..n - 1], spans[n - 1];
      OriginsOfMore(front, Steps(p.mode, last.count + 1));
      RepeatedMore(OriginOf(p), last.count);
      var a, b, c := Origins(front), Repeated(OriginOf(p), last.count), Repeated(OriginOf(p), 1);
      assert a + (b + c) == (a + b) + c;
    } else {
      OriginsOfMore(spans, p);
    }
  }

  lemma CoalesceNonempty(spans: seq<ProducerSpan>, p: ProducerSpan)
    requires AllNonempty(spans) && Width(p) > 0
    ensures AllNonempty(Coalesce(spans, p))
  {
  }

  // ----- PLE history

  datatype Ple = Ple(context: (Token, Token), offset: nat)

  /** The last two consumed tokens, with end-of-sequence before the first. */
  function LastTwo(consumed: seq<Token>, eos: Token): (Token, Token) {
    if consumed == [] then (eos, eos)
    else if |consumed| == 1 then (eos, consumed[0])
    else (consumed[|consumed| - 2], consumed[|consumed| - 1])
  }

  function AdvancePle(p: Ple, tokens: seq<Token>): Ple {
    if tokens == [] then p
    else
      var q := AdvancePle(p, tokens[..|tokens| - 1]);
      Ple((q.context.1, tokens[|tokens| - 1]), q.offset + 1)
  }

  predicate PleCommitted(p: Ple, consumed: seq<Token>, eos: Token) {
    && p.offset == |consumed| && p.context == LastTwo(consumed, eos)
    && forall k :: 0 <= k < |consumed| ==> consumed[k] < VOCABULARY
  }

  lemma {:induction false} AdvancedPle(p: Ple, consumed: seq<Token>, tokens: seq<Token>, eos: Token)
    requires p.offset == |consumed| && p.context == LastTwo(consumed, eos)
    ensures AdvancePle(p, tokens).offset == |consumed| + |tokens|
    ensures AdvancePle(p, tokens).context == LastTwo(consumed + tokens, eos)
  {
    if tokens == [] {
      assert consumed + tokens == consumed;
    } else {
      var front := tokens[..|tokens| - 1];
      AdvancedPle(p, consumed, front, eos);
      assert consumed + tokens == (consumed + front) + [tokens[|tokens| - 1]];
    }
  }

  lemma {:induction false} AdvancedOffset(p: Ple, tokens: seq<Token>)
    ensures AdvancePle(p, tokens).offset == p.offset + |tokens|
  {
    if tokens != [] {
      AdvancedOffset(p, tokens[..|tokens| - 1]);
    }
  }

  // ----- layers

  /** A device-resident cache: its published frontier, whether it is published, and the frontier an
      encoded update would publish. */
  datatype Cache = Cache(frontier: nat, valid: bool, pending: Option<nat>)

  datatype LayerState = Gdn(state: Cache) | Qsa(index: Cache, kv: Cache)

  /** A device step: done, refused with nothing changed, or failed after work began. */
  datatype Outcome = Done | Refused | Broken

  function LayerFrontier(l: LayerState): Option<nat> {
    match l
    case Gdn(s) => if s.valid then Some(s.frontier) else None
    case Qsa(index, kv) => if index.valid && kv.valid && index.frontier == kv.frontier then Some(kv.frontier) else None
  }

  /** Encode an update of some rows; only a published cache accepts one. */
  function EncodeCache(c: Cache, rows: nat, o: Outcome): (Cache, bool) {
    if !c.valid || o == Refused then (c, false)
    else if o == Broken then (c.(valid := false), false)
    else (c.(valid := false, pending := Some(c.frontier + rows)), true)
  }

  /** Publish an encoded update after the stream has completed. */
  function PublishCache(c: Cache, ok: bool): (Cache, bool) {
    if c.valid || c.pending.None? || !ok then (c, false) else (Cache(c.pending.value, true, None), true)
  }

  function EncodeLayer(l: LayerState, rows: nat, o: (Outcome, Outcome)): (LayerState, bool) {
    match l
    case Gdn(s) => var (t, ok) := EncodeCache(s, rows, o.0); (Gdn(t), ok)
    case Qsa(index, kv) =>
      var (i, ok) := EncodeCache(index, rows, o.0);
      if !ok then (Qsa(i, kv), false) else
      var (k, done) := EncodeCache(kv, rows, o.1);
      (Qsa(i, k), done)
  }

  function PublishLayer(l: LayerState, ok: (bool, bool)): (LayerState, bool) {
    match l
    case Gdn(s) => var (t, done) := PublishCache(s, ok.0); (Gdn(t), done)
    case Qsa(index, kv) =>
      var (i, done) := PublishCache(index, ok.0);
      if !done then (Qsa(i, kv), false) else
      var (k, both) := PublishCache(kv, ok.1);
      (Qsa(i, k), both)
  }

  ghost predicate Encoded(l: LayerState, next: nat) {
    match l
    case Gdn(s) => !s.valid && s.pending == Some(next)
    case Qsa(index, kv) => !index.valid && index.pending == Some(next) && !kv.valid && kv.pending == Some(next)
  }

  /** Encoding at a frontier and publishing is the only way forward, by exactly the rows encoded. */
  lemma EncodeThenPublish(l: LayerState, frontier: nat, rows: nat, o: (Outcome, Outcome), ok: (bool, bool))
    requires LayerFrontier(l) == Some(frontier)
    ensures var (m, done) := EncodeLayer(l, rows, o);
            && (done ==> Encoded(m, frontier + rows) && LayerFrontier(m) == None)
            && (Encoded(m, frontier + rows) && PublishLayer(m, ok).1 ==> LayerFrontier(PublishLayer(m, ok).0) == Some(frontier + rows))
  {
  }

  // ----- sessions

  datatype Session = Session(frontier: nat, valid: bool, layers: seq<LayerState>, ple: Ple, eos: Token,
                             consumed: seq<Token>, spans: seq<ProducerSpan>,
                             logits: Option<seq<bv16>>, deviceLogitsBytes: nat)

  /** One finite BF16 logit for every token of the vocabulary. */
  predicate LogitsRow(row: seq<bv16>) {
    |row| == VOCABULARY && forall k :: 0 <= k < |row| ==> FiniteBf16(row[k])
  }

  /** The last row's logits are on the device, with any host copy of them whole and finite; an empty
      session has none. */
  predicate LogitsCommitted(frontier: nat, logits: Option<seq<bv16>>, deviceLogitsBytes: nat) {
    if frontier == 0 then logits.None?
    else deviceLogitsBytes == LOGITS_BYTES && (logits.Some? ==> LogitsRow(logits.value))
  }

  ghost predicate LayersAt(layers: seq<LayerState>, frontier: nat) {
    forall k :: 0 <= k < |layers| ==> LayerFrontier(layers[k]) == Some(frontier)
  }

  /** Everything a valid session agrees on. */
  ghost predicate Committed(s: Session) {
    && |s.consumed| == s.frontier
    && TotalWidth(s.spans) == s.frontier && AllNonempty(s.spans)
    && LogitsCommitted(s.frontier, s.logits, s.deviceLogitsBytes)
    && PleCommitted(s.ple, s.consumed, s.eos)
    && LayersAt(s.layers, s.frontier)
  }

  /** A session between calls: committed if it is valid; an invalid one promises nothing. */
  ghost predicate Sound(s: Session) { s.valid ==> Committed(s) }

  /** One engine call: refused without a change, abandoned for good, or committed whole; or a read of
      the last row's logits, which only keeps a host copy of them. */
  ghost predicate Called(s: Session, t: Session) {
    || t == s
    || (s.valid && !t.valid)
    || (exists tokens, p :: Extends(s, t, tokens, p))
    || (exists row :: ReadsLogits(s, t, row))
  }

  ghost predicate ReadsLogits(s: Session, t: Session, row: seq<bv16>) {
    s.valid && s.frontier > 0 && LogitsRow(row) && t == s.(logits := Some(row))
  }

  ghost predicate Extends(s: Session, t: Session, tokens: seq<Token>, p: ProducerSpan) {
    && s.valid && t.valid && tokens != [] && Width(p) == |tokens|
    && t.frontier == s.frontier + |tokens| && t.consumed == s.consumed + tokens
    && t.spans == Coalesce(s.spans, p)
    && t.ple == AdvancePle(s.ple, tokens)
    && |t.layers| == |s.layers| && LayersAt(t.layers, t.frontier)
    && (forall k :: 0 <= k < |tokens| ==> tokens[k] < VOCABULARY)
    && t.eos == s.eos && t.logits.None? && t.deviceLogitsBytes == s.deviceLogitsBytes == LOGITS_BYTES
  }

  lemma ExtendsSound(s: Session, t: Session, tokens: seq<Token>, p: ProducerSpan)
    requires Sound(s) && Extends(s, t, tokens, p)
    ensures Committed(t)
  {
    CoalesceKeepsOrigins(s.spans, p);
    CoalesceNonempty(s.spans, p);
    AdvancedPle(s.ple, s.consumed, tokens, s.eos);
  }

  ghost predicate History(states: seq<Session>) {
    states != [] && forall k :: 0 < k < |states| ==> Called(states[k - 1], states[k])
  }

  /** Over any history of calls a valid session is committed, and one that has become invalid stays
      exactly as it is. */
  lemma {:induction false} HistorySound(states: seq<Session>, k: nat)
    requires History(states) && Sound(states[0]) && k < |states|
    ensures Sound(states[k])
    ensures !states[k].valid ==> forall j :: k <= j < |states| ==> states[j] == states[k]
    ensures states[k].valid ==> states[0].valid && states[0].consumed <= states[k].consumed
  {
    if k > 0 {
      HistorySound(states, k - 1);
      var s, t := states[k - 1], states[k];
      assert Called(s, t);
      if tokens, p :| Extends(s, t, tokens, p) {
        ExtendsSound(s, t, tokens, p);
      }
    }
    if !states[k].valid {
      StaysInvalid(states, k, |states| - 1);
    }
  }

  lemma {:induction false} StaysInvalid(states: seq<Session>, k: nat, last: nat)
    requires History(states) && k <= last < |states| && !states[k].valid
    ensures forall j :: k <= j <= last ==> states[j] == states[k]
  {
    if k < last {
      StaysInvalid(states, k, last - 1);
      assert Called(states[last - 1], states[last]);
    }
  }
}

/** The durable side of a protected run journal: a hash-chained log beside an external
    compare-and-set anchor that may lag it by one event. */
module RunAnchor {
  import opened Options
  import opened RunEvents
  import V = RunValidator
  import M = RunMachine
  import G = RunGrammar

  /** A collision-free keyed digest, as a free constructor over the hashed body. */
  datatype Digest = ZeroHash | EventHash(run: string, sequence: nat, previous: Digest, event: Event)

  /** One stored line.  A record read back may hold anything in any field. */
  datatype Record = Record(run: string, sequence: nat, previous: Digest, event: Event, hash: Digest)

  /** The authenticated anchor payload. */
  datatype Head = Head(sequence: nat, digest: Digest)

  datatype Problem =
    | HeadAhead | AnchorMissing | HeadRollback | HeadDiffers     // anchor against log
    | RecordInvalid | SequenceInvalid                            // log by itself
    | AlreadyExists | Empty | Terminal | AnchorRaced | Died      // operations

  const MAX_ANCHOR_CAS_RETRIES := 4

  function BodyHash(r: Record): Digest {
    EventHash(r.run, r.sequence, r.previous, r.event)
  }

  function PreviousHash(log: seq<Record>): Digest {
    if log == [] then ZeroHash else log[|log| - 1].hash
  }

  /** What decoding one stored line demands of it. */
  predicate Decodes(run: string, log: seq<Record>, i: nat)
    requires i < |log|
  {
    && log[i].run == run && log[i].sequence == i
    && log[i].previous == PreviousHash(log[..i])
    && log[i].hash == BodyHash(log[i])
  }

  predicate Chained(run: string, log: seq<Record>) {
    forall i | 0 <= i < |log| :: Decodes(run, log, i)
  }

  function Events(log: seq<Record>): (es: seq<Event>)
    ensures |es| == |log| && forall i | 0 <= i < |log| :: es[i] == log[i].event
  {
    seq(|log|, i requires 0 <= i < |log| => log[i].event)
  }

  /** A chained log, field by field: this run, contiguous sequences, each hash over the one
      before. */
  lemma ChainedExactly(run: string, log: seq<Record>)
    ensures Chained(run, log) <==> forall i | 0 <= i < |log| :: Continues(run, log, i)
  {
    forall i | 0 <= i < |log|
      ensures Decodes(run, log, i) <==> Continues(run, log, i)
    {
      if 0 < i { assert log[..i][i - 1] == log[i - 1]; }
    }
  }

  predicate Continues(run: string, log: seq<Record>, i: nat)
    requires i < |log|
  {
    var previous := if i == 0 then ZeroHash else log[i - 1].hash;
    log[i] == Record(run, i, previous, log[i].event, EventHash(run, i, previous, log[i].event))
  }

  // ---- A log that agrees with the anchor is authentic up to the anchor --------------

  /** Backward along the chain: one equal hash forces everything before it. */
  lemma {:induction false} HashFixesPrefix(run: string, a: seq<Record>, b: seq<Record>, k: nat)
    requires Chained(run, a) && Chained(run, b) && k < |a| && k < |b| && a[k].hash == b[k].hash
    ensures a[..k + 1] == b[..k + 1]
  {
    assert Decodes(run, a, k) && Decodes(run, b, k);
    assert a[k] == b[k];
    if 0 < k {
      assert a[..k][k - 1] == a[k - 1] && b[..k][k - 1] == b[k - 1];
      HashFixesPrefix(run, a, b, k - 1);
    }
    assert a[..k + 1] == a[..k] + [a[k]] && b[..k + 1] == b[..k] + [b[k]];
  }

  datatype AnchorState = InSync | Behind | Bad(problem: Problem)

  /** `_anchor_state`: is the log level with the anchor, one event ahead of it, or wrong? */
  function Compare(log: seq<Record>, anchor: Option<Head>, bootstrap: bool): AnchorState {
    if log == [] then
      if anchor.Some? then Bad(HeadAhead) else InSync
    else if anchor.None? then
      if |log| == 1 && bootstrap then Behind else Bad(AnchorMissing)
    else
      var h := anchor.value;
      if h.sequence >= |log| then Bad(HeadRollback)
      else if log[h.sequence].hash != h.digest then Bad(HeadDiffers)
      else if h.sequence == |log| - 1 then InSync
      else if h.sequence == |log| - 2 then Behind
      else Bad(HeadRollback)
  }

  /** Level or one behind, for any log and any anchor, with or without permission to make the
      first one. */
  lemma ComparesExactly(log: seq<Record>, anchor: Option<Head>, bootstrap: bool)
    ensures Compare(log, anchor, bootstrap) == InSync <==>
            if log == [] then anchor.None? else anchor == Some(Head(|log| - 1, log[|log| - 1].hash))
    ensures Compare(log, anchor, bootstrap) == Behind <==>
            || (|log| == 1 && anchor.None? && bootstrap)
            || (|log| >= 2 && anchor == Some(Head(|log| - 2, log[|log| - 2].hash)))
  {
  }

  datatype World = World(log: seq<Record>, anchor: Option<Head>)

  /** `records()`: the first complaint about what is stored, if any. */
  function Inspect(run: string, c: Contract, w: World, bootstrap: bool): Option<Problem> {
    if !Chained(run, w.log) || !PayloadsValid(c, Events(w.log)) then Some(RecordInvalid)
    else if !V.Accepted(c, Events(w.log)) then Some(SequenceInvalid)
    else
      var state := Compare(w.log, w.anchor, bootstrap);
      if state.Bad? then Some(state.problem) else None
  }

  /** Whatever log is found beside an anchor that names event `a` of the true history: if
      the journal reads it, it is that history up to `a`, plus at most one event. */
  lemma AnchoredLogIsAuthentic(run: string, c: Contract, truth: seq<Record>, a: nat, found: seq<Record>, boot: bool)
    requires Chained(run, truth) && a < |truth|
    requires Inspect(run, c, World(found, Some(Head(a, truth[a].hash))), boot).None?
    ensures a + 1 <= |found| <= a + 2
    ensures found[..a + 1] == truth[..a + 1]
  {
    HashFixesPrefix(run, truth, found, a);
  }

  // ---- Operations with crash points -------------------------------------------------

  function HeadOf(log: seq<Record>): Head
    requires log != []
  {
    Head(|log| - 1, log[|log| - 1].hash)
  }

  function Candidate(run: string, log: seq<Record>, e: Event): Record {
    var previous := PreviousHash(log);
    Record(run, |log|, previous, e, EventHash(run, |log|, previous, e))
  }

  datatype Outcome = Outcome(world: World, problem: Option<Problem>)

  /** `_synchronize_anchor`, when the anchor store refuses the first `refusals` updates. */
  function Synchronize(w: World, bootstrap: bool, refusals: nat): Outcome {
    if w.log == [] then Outcome(w, None)
    else
      match Compare(w.log, w.anchor, bootstrap)
      case InSync => Outcome(w, None)
      case Bad(problem) => Outcome(w, Some(problem))
      case Behind =>
        if refusals >= MAX_ANCHOR_CAS_RETRIES then Outcome(w, Some(AnchorRaced))
        else Outcome(w.(anchor := Some(HeadOf(w.log))), None)
  }

  /** Where the process dies during one append, if it does. */
  datatype Crash = NoCrash | BeforeSync | AfterSync | AfterStore

  /** The second half of `_append`: validate, store, advance the anchor. */
  function StoreNext(run: string, c: Contract, w: World, bootstrap: bool, e: Event,
                     crash: Crash, refusals: nat): Outcome
  {
    var next := w.log + [Candidate(run, w.log, e)];
    if w.log != [] && w.log[|w.log| - 1].event.RunFinished? then Outcome(w, Some(Terminal))
    else if !PayloadValid(c, |w.log|, e) then Outcome(w, Some(RecordInvalid))
    else if !V.Accepted(c, Events(next)) then Outcome(w, Some(SequenceInvalid))
    else if crash == AfterStore then Outcome(w.(log := next), Some(Died))
    else Synchronize(w.(log := next), bootstrap, refusals)
  }

  /** `_append`: read, level the anchor, validate, store, advance the anchor. */
  function AppendTo(run: string, c: Contract, w: World, bootstrap: bool, e: Event,
                    crash: Crash, refusals1: nat, refusals2: nat): Outcome
  {
    var unreadable := Inspect(run, c, w, bootstrap);
    if unreadable.Some? then Outcome(w, unreadable)
    else if crash == BeforeSync then Outcome(w, Some(Died))
    else
      var levelled := Synchronize(w, bootstrap, refusals1);
      if levelled.problem.Some? then levelled
      else
        if crash == AfterSync then Outcome(levelled.world, Some(Died))
        else StoreNext(run, c, levelled.world, bootstrap, e, crash, refusals2)
  }

  datatype Op =
    | Create(crash: Crash, refusals1: nat, refusals2: nat)
    | Append(event: Event, crash: Crash, refusals1: nat, refusals2: nat)
    | Level(refusals: nat)

  /** One call by whichever process holds the journal's lock.  Nothing but the log and the
      anchor outlives a call, so a crash is simply the end of one. */
  function Perform(run: string, c: Contract, w: World, op: Op): Outcome {
    match op
    case Create(crash, r1, r2) =>
      if w.log != [] then Outcome(w, Some(AlreadyExists))
      else AppendTo(run, c, w, true, RunStarted, crash, r1, r2)
    case Append(e, crash, r1, r2) =>
      if w.log == [] then Outcome(w, Some(Empty))
      else AppendTo(run, c, w, false, e, crash, r1, r2)
    case Level(refusals) =>
      var unreadable := Inspect(run, c, w, false);
      if unreadable.Some? then Outcome(w, unreadable) else Synchronize(w, false, refusals)
  }

  function PerformAll(run: string, c: Contract, ops: seq<Op>): World {
    if ops == [] then World([], None)
    else Perform(run, c, PerformAll(run, c, ops[..|ops| - 1]), ops[|ops| - 1]).world
  }

  /** The stored events form an intact chain of a possible run. */
  predicate GoodLog(run: string, c: Contract, log: seq<Record>) {
    Chained(run, log) && PayloadsValid(c, Events(log)) && V.Accepted(c, Events(log))
  }

  /** The anchor names the last or second-last event, or is absent and there is at most
      the first event. */
  predicate Anchored(w: World) {
    if w.anchor.None? then |w.log| <= 1
    else
      && w.log != []
      && w.anchor.value.sequence in {|w.log| - 1, |w.log| - 2}
      && w.anchor.value.digest == w.log[w.anchor.value.sequence].hash
  }

  predicate Levelled(w: World) {
    if w.log == [] then w.anchor.None? else w.anchor == Some(HeadOf(w.log))
  }

  predicate Durable(run: string, c: Contract, w: World) {
    GoodLog(run, c, w.log) && Anchored(w)
  }

  /** The first event is stored and its anchor is not. */
  predicate FirstEventWindow(w: World) {
    |w.log| == 1 && w.anchor.None?
  }

  lemma CandidateExtends(run: string, c: Contract, log: seq<Record>, e: Event)
    requires Chained(run, log) && PayloadsValid(c, Events(log)) && PayloadValid(c, |log|, e)
    ensures Chained(run, log + [Candidate(run, log, e)])
    ensures PayloadsValid(c, Events(log + [Candidate(run, log, e)]))
  {
    var next := log + [Candidate(run, log, e)];
    forall i | 0 <= i < |next|
      ensures Decodes(run, next, i)
    {
      assert next[..i] == log[..i];
      if i < |log| {
        assert Decodes(run, log, i);
      } else {
        assert log[..i] == log;
      }
    }
    forall i | 0 <= i < |next|
      ensures PayloadValid(c, i, Events(next)[i])
    {
      if i < |log| { assert Events(next)[i] == Events(log)[i]; }
    }
  }

  /** Synchronising never touches the log, and what it does not complain about it levels. */
  lemma SynchronizeAnchors(w: World, boot: bool, refusals: nat)
    requires Anchored(w)
    ensures var o := Synchronize(w, boot, refusals);
            && o.world.log == w.log && Anchored(o.world)
            && (o.problem.None? ==> Levelled(o.world))
            && (Compare(w.log, w.anchor, boot).Bad? <==> FirstEventWindow(w) && !boot)
            && (o.problem.None? <==>
                Levelled(w) || (!(FirstEventWindow(w) && !boot) && refusals < MAX_ANCHOR_CAS_RETRIES))
  {
  }

  lemma StoredStaysAnchored(w: World, r: Record)
    requires Levelled(w)
    ensures Anchored(w.(log := w.log + [r]))
  {
  }

  lemma DurableStore(run: string, c: Contract, w: World, boot: bool, e: Event, crash: Crash, refusals: nat)
    requires GoodLog(run, c, w.log) && Levelled(w)
    ensures Durable(run, c, StoreNext(run, c, w, boot, e, crash, refusals).world)
  {
    var stored := w.(log := w.log + [Candidate(run, w.log, e)]);
    StoredStaysAnchored(w, Candidate(run, w.log, e));
    SynchronizeAnchors(stored, boot, refusals);
    if PayloadValid(c, |w.log|, e) {
      CandidateExtends(run, c, w.log, e);
    }
  }

  lemma DurableAppend(run: string, c: Contract, w: World, boot: bool, e: Event, crash: Crash, r1: nat, r2: nat)
    requires Durable(run, c, w)
    ensures Durable(run, c, AppendTo(run, c, w, boot, e, crash, r1, r2).world)
  {
    SynchronizeAnchors(w, boot, r1);
    var levelled := Synchronize(w, boot, r1);
    if levelled.problem.None? {
      DurableStore(run, c, levelled.world, boot, e, crash, r2);
    }
  }

  lemma AppendKeepsDurable(run: string, c: Contract, w: World, boot: bool, e: Event, crash: Crash, r1: nat, r2: nat)
    ensures Durable(run, c, w) ==> Durable(run, c, AppendTo(run, c, w, boot, e, crash, r1, r2).world)
  {
    if Durable(run, c, w) {
      DurableAppend(run, c, w, boot, e, crash, r1, r2);
    }
  }

  /** Over every sequence of creations, appends and synchronisations, each cut short by a
      crash or by a refusing anchor store anywhere, the stored state stays durable. */
  lemma {:induction false} AlwaysDurable(run: string, c: Contract, ops: seq<Op>)
    ensures Durable(run, c, PerformAll(run, c, ops))
  {
    if ops == [] {
      assert Events([]) == [];
    } else {
      var w, op := PerformAll(run, c, ops[..|ops| - 1]), ops[|ops| - 1];
      AlwaysDurable(run, c, ops[..|ops| - 1]);
      match op
      case Create(crash, r1, r2) => DurableAppend(run, c, w, true, RunStarted, crash, r1, r2);
      case Append(e, crash, r1, r2) => DurableAppend(run, c, w, false, e, crash, r1, r2);
      case Level(_) =>
    }
  }

  /** A restarted process reads every reachable state except the one left by a crash
      between storing the very first event and anchoring it; and what it reads, it can
      level: the anchor then names the last event. */
  lemma RestartReadsExactly(run: string, c: Contract, ops: seq<Op>, refusals: nat)
    ensures var w := PerformAll(run, c, ops);
            && (Inspect(run, c, w, false).None? <==> !FirstEventWindow(w))
            && (!FirstEventWindow(w) && w.log != [] && refusals < MAX_ANCHOR_CAS_RETRIES ==>
                  Perform(run, c, w, Level(refusals)) == Outcome(w.(anchor := Some(HeadOf(w.log))), None))
  {
    AlwaysDurable(run, c, ops);
    SynchronizeAnchors(PerformAll(run, c, ops), false, refusals);
  }

  /** That window is real -- one crash during creation reaches it -- and final: no later
      call changes it or succeeds. */
  lemma FirstEventWindowIsFatal(run: string, c: Contract, op: Op)
    ensures var stuck := PerformAll(run, c, [Create(AfterStore, 0, 0)]);
            FirstEventWindow(stuck)
    ensures forall w :: FirstEventWindow(w) ==>
              Perform(run, c, w, op).world == w && Perform(run, c, w, op).problem.Some?
  {
    var first := Candidate(run, [], RunStarted);
    assert [] + [first] == [first];
    assert Events([first]) == [RunStarted];
    V.ValidateSnoc(c, [], RunStarted);
    assert [] + [RunStarted] == [RunStarted];
    assert Events([]) == [];
    assert [Create(AfterStore, 0, 0)][..0] == [];
  }

  /** An append that returns normally has extended the history by exactly its event and
      left the anchor naming it. */
  lemma AppendCommits(run: string, c: Contract, w: World, e: Event, crash: Crash, r1: nat, r2: nat)
    requires Durable(run, c, w) && Perform(run, c, w, Append(e, crash, r1, r2)).problem.None?
    ensures var w' := Perform(run, c, w, Append(e, crash, r1, r2)).world;
            && w'.log == w.log + [Candidate(run, w.log, e)]
            && w'.anchor == Some(HeadOf(w'.log))
  {
  }

  /** Whatever is found: the journal reads it exactly when it is an intact chain of a possible
      run whose last or second-last event the anchor names, or there is nothing at all. */
  lemma ReadsExactly(run: string, c: Contract, w: World)
    ensures Inspect(run, c, w, false).None? <==> Durable(run, c, w) && !FirstEventWindow(w)
  {
  }

  /** Exactly when a run is created: nothing is stored or anchored yet, and the anchor store
      gives way; then the journal holds the start of the run, anchored. */
  lemma CreateSucceedsExactly(run: string, c: Contract, w: World, r1: nat, r2: nat)
    ensures var o := Perform(run, c, w, Create(NoCrash, r1, r2));
            && (o.problem.None? <==> w.log == [] && w.anchor.None? && r2 < 4)
            && (o.problem.None? ==>
                  && |o.world.log| == 1 && o.world.log[0].event == RunStarted && o.world.log[0].run == run
                  && o.world.anchor == Some(Head(0, o.world.log[0].hash)) && GoodLog(run, c, o.world.log))
  {
    if w.log == [] && w.anchor.None? {
      var first := Candidate(run, [], RunStarted);
      assert Events([]) == [] && [] + [first] == [first] && Events([first]) == [RunStarted];
      V.ValidateSnoc(c, [], RunStarted);
      assert [] + [RunStarted] == [RunStarted];
      CandidateExtends(run, c, [], RunStarted);
    }
  }

  /** The complaint about a journal that is not read is true. */
  lemma ReadProblemIsTrue(run: string, c: Contract, w: World)
    requires Inspect(run, c, w, false).Some?
    ensures match Inspect(run, c, w, false).value
            case RecordInvalid => !Chained(run, w.log) || !PayloadsValid(c, Events(w.log))
            case SequenceInvalid => !V.Accepted(c, Events(w.log))
            case HeadAhead => w.log == [] && w.anchor.Some?
            case AnchorMissing => w.log != [] && w.anchor.None?
            case HeadRollback =>
              w.log != [] && w.anchor.Some? &&
              (w.anchor.value.sequence >= |w.log| || w.anchor.value.sequence < |w.log| - 2)
            case HeadDiffers =>
              w.anchor.Some? && w.anchor.value.sequence < |w.log| &&
              w.anchor.value.digest != w.log[w.anchor.value.sequence].hash
            case _ => false
  {
  }

  /** After its last event was a terminal receipt, a history accepts nothing more. */
  lemma TerminalAcceptsNothing(c: Contract, es: seq<Event>, e: Event)
    requires es != [] && V.Accepted(c, es) && es[|es| - 1].RunFinished?
    ensures !V.Accepted(c, es + [e])
  {
    G.NextExactly(c, es, e);
    assert G.Ended(es);
  }

  /** Exactly when an append to a durable journal succeeds: the journal can be read, the
      anchor store gives way within four attempts each time it is needed, and the event is
      valid and may come next. */
  lemma AppendSucceedsExactly(run: string, c: Contract, w: World, e: Event, r1: nat, r2: nat)
    requires Durable(run, c, w) && w.log != []
    ensures Perform(run, c, w, Append(e, NoCrash, r1, r2)).problem.None? <==>
            && !FirstEventWindow(w) && (Levelled(w) || r1 < 4) && r2 < 4
            && PayloadValid(c, |w.log|, e) && V.Accepted(c, Events(w.log) + [e])
  {
    ReadsExactly(run, c, w);
    SynchronizeAnchors(w, false, r1);
    var levelled := Synchronize(w, false, r1);
    if levelled.problem.None? {
      StoreSucceedsExactly(run, c, levelled.world, e, r2);
    }
  }

  lemma StoreSucceedsExactly(run: string, c: Contract, w: World, e: Event, r: nat)
    requires GoodLog(run, c, w.log) && w.log != [] && Levelled(w)
    ensures StoreNext(run, c, w, false, e, NoCrash, r).problem.None? <==>
            r < 4 && PayloadValid(c, |w.log|, e) && V.Accepted(c, Events(w.log) + [e])
  {
    var next := w.log + [Candidate(run, w.log, e)];
    assert Events(next) == Events(w.log) + [e];
    if w.log[|w.log| - 1].event.RunFinished? {
      TerminalAcceptsNothing(c, Events(w.log), e);
    }
    StoredStaysAnchored(w, Candidate(run, w.log, e));
    SynchronizeAnchors(w.(log := next), false, r);
  }

  // ---- The journal object -----------------------------------------------------------

  /** A protected journal over its store and anchor.  Crash points and refusals are
      parameters: where the process dies, and how many updates the anchor store turns down. */
  class AgentRunJournal {
    const run: string
    const contract: Contract
    var log: seq<Record>
    var anchor: Option<Head>
    var bootstrapAllowed: bool
    var anchorPending: bool

    ghost function Stored(): World
      reads this
    {
      World(log, anchor)
    }

    constructor (run: string, contract: Contract, log: seq<Record>, anchor: Option<Head>)
      ensures this.run == run && this.contract == contract
      ensures Stored() == World(log, anchor) && !bootstrapAllowed
    {
      this.run, this.contract, this.log, this.anchor := run, contract, log, anchor;
      bootstrapAllowed, anchorPending := false, false;
    }

    /** Decode every stored line against its predecessor and check its payload. */
    method DecodeRecords() returns (ok: bool)
      ensures ok <==> Chained(run, log) && PayloadsValid(contract, Events(log))
    {
      var previous := ZeroHash;
      for sequence := 0 to |log|
        invariant previous == PreviousHash(log[..sequence])
        invariant forall i | 0 <= i < sequence :: Decodes(run, log, i)
        invariant forall i | 0 <= i < sequence :: PayloadValid(contract, i, Events(log)[i])
      {
        var raw := log[sequence];
        if raw.run != run || raw.sequence != sequence || raw.previous != previous || raw.hash != BodyHash(raw) {
          assert !Decodes(run, log, sequence);
          return false;
        }
        if !PayloadValid(contract, sequence, raw.event) {
          assert Events(log)[sequence] == raw.event;
          return false;
        }
        previous := raw.hash;
      }
      return true;
    }

    /** Decode what is stored, validate the run it describes, then compare with the anchor. */
    method Records() returns (problem: Option<Problem>)
      modifies `anchorPending
      ensures problem == Inspect(run, contract, Stored(), bootstrapAllowed)
    {
      var ok := DecodeRecords();
      if !ok { return Some(RecordInvalid); }
      var reason := M.ValidateEventSequence(Events(log), contract);
      if reason.Some? { return Some(SequenceInvalid); }
      var state := Compare(log, anchor, bootstrapAllowed);
      if state.Bad? { return Some(state.problem); }
      anchorPending := state.Behind?;
      return None;
    }

    /** Retry until the anchor is level or the retries run out. */
    method SynchronizeAnchor(refusals: nat) returns (problem: Option<Problem>)
      modifies `anchor, `anchorPending
      ensures Outcome(Stored(), problem) == Synchronize(old(Stored()), bootstrapAllowed, refusals)
    {
      if log == [] { return None; }
      for attempt := 0 to MAX_ANCHOR_CAS_RETRIES
        invariant anchor == old(anchor)
        invariant attempt <= refusals
        invariant 0 < attempt ==> Compare(log, anchor, bootstrapAllowed) == Behind
      {
        var state := Compare(log, anchor, bootstrapAllowed);
        if state.Bad? { return Some(state.problem); }
        if state.InSync? {
          anchorPending := false;
          return None;
        }
        if refusals <= attempt {
          anchor, anchorPending := Some(HeadOf(log)), false;
          return None;
        }
      }
      return Some(AnchorRaced);
    }

    method StoreEvent(e: Event, crash: Crash, refusals: nat) returns (problem: Option<Problem>)
      modifies `log, `anchor, `anchorPending
      ensures Outcome(Stored(), problem) ==
              StoreNext(run, contract, old(Stored()), bootstrapAllowed, e, crash, refusals)
    {
      if log != [] && log[|log| - 1].event.RunFinished? { return Some(Terminal); }
      if !PayloadValid(contract, |log|, e) { return Some(RecordInvalid); }
      var next := log + [Candidate(run, log, e)];
      var reason := M.ValidateEventSequence(Events(next), contract);
      if reason.Some? { return Some(SequenceInvalid); }
      log := next;
      if crash == AfterStore { return Some(Died); }
      problem := SynchronizeAnchor(refusals);
    }

    method AppendEvent(e: Event, crash: Crash, refusals1: nat, refusals2: nat) returns (problem: Option<Problem>)
      modifies `log, `anchor, `anchorPending
      ensures Outcome(Stored(), problem) ==
              AppendTo(run, contract, old(Stored()), bootstrapAllowed, e, crash, refusals1, refusals2)
      ensures Durable(run, contract, old(Stored())) ==> Durable(run, contract, Stored())
    {
      AppendKeepsDurable(run, contract, Stored(), bootstrapAllowed, e, crash, refusals1, refusals2);
      problem := Records();
      if problem.Some? { return; }
      if crash == BeforeSync { return Some(Died); }
      problem := SynchronizeAnchor(refusals1);
      if problem.Some? { return; }
      if crash == AfterSync { return Some(Died); }
      problem := StoreEvent(e, crash, refusals2);
    }

    /** `create`: bootstrap permission lasts for the first append only. */
    method CreateRun(crash: Crash, refusals1: nat, refusals2: nat) returns (problem: Option<Problem>)
      requires !bootstrapAllowed
      modifies this
      ensures !bootstrapAllowed
      ensures Outcome(Stored(), problem) ==
              Perform(run, contract, old(Stored()), Create(crash, refusals1, refusals2))
      ensures Durable(run, contract, old(Stored())) ==> Durable(run, contract, Stored())
    {
      if log != [] { return Some(AlreadyExists); }
      bootstrapAllowed := true;
      problem := AppendEvent(RunStarted, crash, refusals1, refusals2);
      bootstrapAllowed := false;
    }
  }
}

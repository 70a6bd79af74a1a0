/** The external receipt anchor: a compare-and-set cell that any number of processes
    advance along an append-only receipt chain, each working from a possibly stale read. */
module ReceiptAnchor {
  import opened Options
  import opened ControlTables
  import opened ControlReceipts

  datatype SyncError = AnchorMissing | HeadRollback | AnchorRace

  const MAX_RETRIES := 8

  predicate InChain(chain: seq<Receipt>, r: Receipt) {
    1 <= r.sequence <= |chain| && chain[r.sequence - 1] == r
  }

  /** What an iteration decides after loading the anchor. */
  datatype Decision =
    | Finish
    | Fail(error: SyncError)
    | Reread
    | Advance(candidate: Receipt)

  function Decide(sequence: seq<Receipt>, loaded: Option<Receipt>, bootstrap: bool): Decision {
    if loaded.None? then
      if sequence == [] then Finish
      else if !bootstrap then Fail(AnchorMissing)
      else Advance(sequence[0])
    else
      var anchored := loaded.value;
      if anchored.sequence > |sequence| then Reread
      else if anchored.sequence == 0 || sequence[anchored.sequence - 1] != anchored then Fail(HeadRollback)
      else if anchored == sequence[|sequence| - 1] then Finish
      else Advance(sequence[|sequence| - 1])
  }

  // ---- one process alone --------------------------------------------------------------

  /** The journal's chain, the anchor cell and this process's bootstrap permission. */
  class AnchoredJournal {
    var chain: seq<Receipt>
    var anchor: Option<Receipt>
    var bootstrapAllowed: bool

    constructor (chain: seq<Receipt>, anchor: Option<Receipt>, bootstrapAllowed: bool)
      ensures this.chain == chain && this.anchor == anchor && this.bootstrapAllowed == bootstrapAllowed
    {
      this.chain, this.anchor, this.bootstrapAllowed := chain, anchor, bootstrapAllowed;
    }

    /** The synchroniser, undisturbed.  From any prefix of the chain it takes at most three
        iterations; it succeeds exactly when an anchor in the chain exists, may be created,
        or is not needed; and then the anchor is at or beyond the prefix it was given. */
    method Synchronize(snapshot: seq<Receipt>) returns (error: Option<SyncError>, iterations: nat)
      requires GlobalChain(chain) && snapshot <= chain
      modifies `anchor, `bootstrapAllowed
      ensures iterations <= 3
      ensures error.None? <==>
              if old(anchor).Some? then InChain(chain, old(anchor).value)
              else snapshot == [] || old(bootstrapAllowed)
      ensures error.None? && snapshot != [] ==>
              && anchor.Some? && InChain(chain, anchor.value) && |snapshot| <= anchor.value.sequence
              && (old(anchor).Some? ==> old(anchor).value.sequence <= anchor.value.sequence)
      ensures error.Some? ==> anchor == old(anchor)
      ensures old(anchor).Some? && error.Some? ==> error == Some(HeadRollback)
    {
      var sequence := snapshot;
      iterations := 0;
      ChainPositions(chain);
      while iterations < MAX_RETRIES
        invariant iterations <= 2
        invariant |snapshot| <= |sequence| && sequence <= chain
        invariant iterations == 0 ==>
                    sequence == snapshot && anchor == old(anchor) && bootstrapAllowed == old(bootstrapAllowed)
        invariant 0 < iterations ==> sequence != []
        invariant 0 < iterations && anchor == old(anchor) ==> anchor.Some? && sequence == chain && iterations == 1
        invariant anchor != old(anchor) ==>
                    && anchor.Some? && InChain(sequence, anchor.value)
                    && (old(anchor).Some? ==> InChain(chain, old(anchor).value)
                                              && old(anchor).value.sequence <= anchor.value.sequence)
                    && (old(anchor).None? ==> old(bootstrapAllowed))
                    && (iterations == 2 ==> anchor.value == sequence[|sequence| - 1])
        decreases MAX_RETRIES - iterations
      {
        iterations := iterations + 1;
        var loaded := anchor;
        if loaded.Some? { bootstrapAllowed := false; }
        var decision := Decide(sequence, loaded, bootstrapAllowed);
        match decision {
          case Finish => return None, iterations;
          case Fail(problem) => return Some(problem), iterations;
          case Reread =>
            if chain == sequence { return Some(HeadRollback), iterations; }
            sequence := chain;
          case Advance(candidate) =>
            anchor, bootstrapAllowed := Some(candidate), false;
        }
      }
      return Some(AnchorRace), iterations;
    }
  }

  lemma ChainPositions(chain: seq<Receipt>)
    requires GlobalChain(chain)
    ensures forall i | 0 <= i < |chain| :: chain[i].sequence == i + 1
  {
    forall i | 0 <= i < |chain|
      ensures chain[i].sequence == i + 1
    {
      assert Linked(chain, i, chain[0].key);
    }
  }

  // ---- any number of processes ----------------------------------------------------------

  /** Where one synchronising process stands between two of its atomic accesses. */
  datatype Phase =
    | AtLoad
    | AtCas(candidate: Receipt, expected: Option<Receipt>)
    | AtReread(lostRace: bool)
    | Done(error: Option<SyncError>)

  datatype Process = Process(sequence: seq<Receipt>, attempt: nat, bootstrap: bool, phase: Phase)

  datatype World = World(chain: seq<Receipt>, anchor: Option<Receipt>, processes: map<nat, Process>)

  datatype Step =
    | Append(receipt: Receipt)           // some process finalises a receipt
    | Begin(id: nat, bootstrap: bool)    // a process reads the chain and enters the loop
    | Load(id: nat)
    | Cas(id: nat)
    | Refresh(id: nat)

  function LoadAnchor(w: World, p: Process): Process {
    if p.attempt >= MAX_RETRIES then p.(phase := Done(Some(AnchorRace)))
    else
      var bootstrap := p.bootstrap && w.anchor.None?;
      match Decide(p.sequence, w.anchor, bootstrap)
      case Finish => p.(bootstrap := bootstrap, phase := Done(None))
      case Fail(error) => p.(bootstrap := bootstrap, phase := Done(Some(error)))
      case Reread => p.(bootstrap := bootstrap, phase := AtReread(false))
      case Advance(candidate) => p.(bootstrap := bootstrap, phase := AtCas(candidate, w.anchor))
  }

  function RereadChain(w: World, p: Process): Process
    requires p.phase.AtReread?
  {
    if !p.phase.lostRace && w.chain == p.sequence then p.(phase := Done(Some(HeadRollback)))
    else p.(sequence := w.chain, attempt := p.attempt + 1, phase := AtLoad)
  }

  /** One atomic access to the journal or the anchor; a step that does not apply is a stutter. */
  function Next(w: World, s: Step): World {
    match s
    case Append(r) =>
      if r.sequence == |w.chain| + 1 && r.previous == PreviousOf(w.chain, |w.chain|)
         && (w.chain != [] ==> r.key == w.chain[0].key)
      then w.(chain := w.chain + [r]) else w
    case Begin(id, bootstrap) =>
      if id in w.processes && !w.processes[id].phase.Done? then w
      else w.(processes := w.processes[id := Process(w.chain, 0, bootstrap, AtLoad)])
    case Load(id) =>
      if id in w.processes && w.processes[id].phase.AtLoad?
      then w.(processes := w.processes[id := LoadAnchor(w, w.processes[id])]) else w
    case Cas(id) =>
      if id in w.processes && w.processes[id].phase.AtCas? then
        var p := w.processes[id];
        if w.anchor == p.phase.expected then
          w.(anchor := Some(p.phase.candidate),
             processes := w.processes[id := p.(bootstrap := false, attempt := p.attempt + 1, phase := AtLoad)])
        else w.(processes := w.processes[id := p.(phase := AtReread(true))])
      else w
    case Refresh(id) =>
      if id in w.processes && w.processes[id].phase.AtReread?
      then w.(processes := w.processes[id := RereadChain(w, w.processes[id])]) else w
  }

  function Run(steps: seq<Step>): World {
    if steps == [] then World([], None, map[]) else Next(Run(steps[..|steps| - 1]), steps[|steps| - 1])
  }

  /** What a process may rely on between its accesses, whatever the others do. */
  predicate ProcessInv(chain: seq<Receipt>, p: Process) {
    && p.sequence <= chain
    && match p.phase
       case AtLoad => true
       case AtCas(candidate, expected) =>
         && InChain(chain, candidate)
         && (expected.Some? ==> InChain(chain, expected.value) && expected.value.sequence < candidate.sequence)
       case AtReread(lostRace) => lostRace || |p.sequence| < |chain|
       case Done(error) => error != Some(HeadRollback)
  }

  ghost predicate WorldInv(w: World) {
    && GlobalChain(w.chain)
    && (w.anchor.Some? ==> InChain(w.chain, w.anchor.value))
    && (forall id | id in w.processes :: ProcessInv(w.chain, w.processes[id]))
  }

  lemma ProcessInvGrows(chain: seq<Receipt>, r: Receipt, p: Process)
    requires ProcessInv(chain, p)
    ensures ProcessInv(chain + [r], p)
  {
    assert p.sequence <= chain + [r];
  }

  lemma LoadKeepsInv(w: World, p: Process)
    requires WorldInv(w) && ProcessInv(w.chain, p) && p.phase.AtLoad?
    ensures ProcessInv(w.chain, LoadAnchor(w, p))
  {
    ChainPositions(w.chain);
  }

  lemma NextKeepsInv(w: World, s: Step)
    requires WorldInv(w)
    ensures WorldInv(Next(w, s))
  {
    match s
    case Append(r) =>
      if Next(w, s) != w {
        ChainSnoc(w.chain, r);
        forall id | id in w.processes
          ensures ProcessInv(w.chain + [r], w.processes[id])
        {
          ProcessInvGrows(w.chain, r, w.processes[id]);
        }
      }
    case Begin(_, _) =>
    case Load(id) =>
      if id in w.processes && w.processes[id].phase.AtLoad? {
        LoadKeepsInv(w, w.processes[id]);
      }
    case Cas(_) =>
    case Refresh(_) =>
  }

  /** Over every interleaving of appenders and synchronisers the anchor is a receipt of the
      chain, and no process ever reports a rollback, however stale its read. */
  lemma {:induction false} NoFalseRollback(steps: seq<Step>)
    ensures WorldInv(Run(steps))
    ensures forall id | id in Run(steps).processes :: Run(steps).processes[id].phase != Done(Some(HeadRollback))
  {
    if steps != [] {
      NoFalseRollback(steps[..|steps| - 1]);
      NextKeepsInv(Run(steps[..|steps| - 1]), steps[|steps| - 1]);
    }
    assert forall id | id in Run(steps).processes :: ProcessInv(Run(steps).chain, Run(steps).processes[id]);
  }

  /** The anchor, once set, stays set and only moves forward along the chain. */
  lemma {:induction false} AnchorOnlyAdvances(steps: seq<Step>, i: nat, j: nat)
    requires i <= j <= |steps|
    ensures Advances(Run(steps[..i]), Run(steps[..j]))
    decreases j
  {
    if i < j {
      var before := Run(steps[..j - 1]);
      AnchorOnlyAdvances(steps, i, j - 1);
      assert steps[..j][..j - 1] == steps[..j - 1];
      NoFalseRollback(steps[..j - 1]);
      StepAdvances(before, steps[j - 1]);
      AdvancesTwice(Run(steps[..i]), before, Next(before, steps[j - 1]));
    }
  }

  /** The chain grows, and the anchor, once set, stays set and moves forward. */
  predicate Advances(before: World, after: World) {
    && before.chain <= after.chain
    && (before.anchor.Some? ==>
          after.anchor.Some? && before.anchor.value.sequence <= after.anchor.value.sequence)
  }

  lemma AdvancesTwice(a: World, b: World, c: World)
    requires Advances(a, b) && Advances(b, c)
    ensures Advances(a, c)
  {
  }

  lemma StepAdvances(w: World, s: Step)
    requires WorldInv(w)
    ensures Advances(w, Next(w, s))
  {
    if s.Cas? && s.id in w.processes {
      assert ProcessInv(w.chain, w.processes[s.id]);
    }
  }

  // ---- what a process ends with -----------------------------------------------------------

  /** What a load decides, for any snapshot of the chain and any state of the anchor. */
  lemma LoadExactly(w: World, p: Process)
    requires WorldInv(w) && p.sequence <= w.chain && p.phase.AtLoad? && p.attempt < 8
    ensures var phase := LoadAnchor(w, p).phase;
            if w.anchor.None? then
              phase == (if p.sequence == [] then Done(None)
                        else if p.bootstrap then AtCas(p.sequence[0], None)
                        else Done(Some(AnchorMissing)))
            else if w.anchor.value.sequence > |p.sequence| then phase == AtReread(false)
            else if w.anchor.value.sequence == |p.sequence| then phase == Done(None)
            else phase == AtCas(p.sequence[|p.sequence| - 1], w.anchor)
  {
    ChainPositions(w.chain);
    assert w.anchor.Some? ==> w.chain[w.anchor.value.sequence - 1] == w.anchor.value;
  }

  /** A process that is done has anchored its snapshot, or says truthfully why not. */
  predicate EndedWell(w: World, p: Process) {
    match p.phase
    case Done(None) => p.sequence != [] ==> w.anchor.Some? && |p.sequence| <= w.anchor.value.sequence
    case Done(Some(AnchorRace)) => p.attempt >= 8
    case Done(Some(AnchorMissing)) => p.sequence != [] && !p.bootstrap
    case _ => true
  }

  ghost predicate AllEndedWell(w: World) {
    forall id | id in w.processes :: EndedWell(w, w.processes[id])
  }

  lemma LoadEndsWell(w: World, p: Process)
    requires WorldInv(w) && ProcessInv(w.chain, p) && p.phase.AtLoad?
    ensures EndedWell(w, LoadAnchor(w, p))
  {
    if p.attempt < MAX_RETRIES {
      LoadExactly(w, p);
    }
  }

  lemma NextEndsWell(w: World, s: Step)
    requires WorldInv(w) && AllEndedWell(w)
    ensures AllEndedWell(Next(w, s))
  {
    var w' := Next(w, s);
    if s.Load? && s.id in w.processes && w.processes[s.id].phase.AtLoad? {
      LoadEndsWell(w, w.processes[s.id]);
    }
    forall id | id in w'.processes
      ensures EndedWell(w', w'.processes[id])
    {
      if id in w.processes {
        assert EndedWell(w, w.processes[id]) && ProcessInv(w.chain, w.processes[id]);
      }
      if s.Cas? && s.id in w.processes {
        assert ProcessInv(w.chain, w.processes[s.id]);
      }
    }
  }

  /** Over every interleaving, whoever finishes without an error has its whole snapshot
      anchored, and nobody gives up early. */
  lemma {:induction false} EveryoneEndsWell(steps: seq<Step>)
    ensures AllEndedWell(Run(steps))
  {
    if steps != [] {
      EveryoneEndsWell(steps[..|steps| - 1]);
      NoFalseRollback(steps[..|steps| - 1]);
      NextEndsWell(Run(steps[..|steps| - 1]), steps[|steps| - 1]);
    }
  }

  // ---- progress -----------------------------------------------------------------------------

  /** One uncontended iteration: load, then update if that was decided. */
  function Iterate(w: World, id: nat): World {
    Next(Next(w, Load(id)), Cas(id))
  }

  predicate Loading(w: World, id: nat) {
    id in w.processes && w.processes[id].phase.AtLoad? && w.processes[id].sequence == w.chain
  }

  /** An iteration with a current snapshot ends the loop, or moves the anchor on. */
  lemma IterateAdvances(w: World, id: nat)
    requires WorldInv(w) && Loading(w, id) && w.processes[id].attempt < 8
    requires w.chain != [] && (w.anchor.Some? || w.processes[id].bootstrap)
    ensures var w' := Iterate(w, id);
            && WorldInv(w') && w'.chain == w.chain && id in w'.processes
            && (if w.anchor == Some(w.chain[|w.chain| - 1])
                then w'.processes[id].phase == Done(None) && w'.anchor == w.anchor
                else
                  && Loading(w', id) && w'.processes[id].attempt == w.processes[id].attempt + 1
                  && w'.anchor == Some(if w.anchor.None? then w.chain[0] else w.chain[|w.chain| - 1]))
  {
    LoadExactly(w, w.processes[id]);
    ChainPositions(w.chain);
    NextKeepsInv(w, Load(id));
    NextKeepsInv(Next(w, Load(id)), Cas(id));
  }

  /** With an anchor in place, two iterations are enough. */
  lemma TwoIterationsFinish(w: World, id: nat)
    requires WorldInv(w) && Loading(w, id) && w.processes[id].attempt < 7 && w.chain != [] && w.anchor.Some?
    ensures Finished(Iterate(w, id), id, w.chain) || Finished(Iterate(Iterate(w, id), id), id, w.chain)
  {
    var one := Iterate(w, id);
    IterateAdvances(w, id);
    if Loading(one, id) {
      IterateAdvances(one, id);
    }
  }

  /** Left alone, a process that may bootstrap or finds an anchor levels the anchor with the
      chain and ends without an error, within three iterations. */
  lemma UncontendedCompletes(w: World, id: nat, bootstrap: bool)
    requires WorldInv(w) && (id in w.processes ==> w.processes[id].phase.Done?)
    requires w.chain != [] && (w.anchor.Some? || bootstrap)
    ensures var one := Iterate(Next(w, Begin(id, bootstrap)), id);
            var two := Iterate(one, id);
            Finished(one, id, w.chain) || Finished(two, id, w.chain) || Finished(Iterate(two, id), id, w.chain)
  {
    var begun := Next(w, Begin(id, bootstrap));
    NextKeepsInv(w, Begin(id, bootstrap));
    FirstIteration(begun, id);
  }

  lemma FirstIteration(w: World, id: nat)
    requires WorldInv(w) && Loading(w, id) && w.processes[id].attempt < 6
    requires w.chain != [] && (w.anchor.Some? || w.processes[id].bootstrap)
    ensures var one := Iterate(w, id);
            var two := Iterate(one, id);
            Finished(one, id, w.chain) || Finished(two, id, w.chain) || Finished(Iterate(two, id), id, w.chain)
  {
    IterateAdvances(w, id);
    if Loading(Iterate(w, id), id) {
      TwoIterationsFinish(Iterate(w, id), id);
    }
  }

  /** A process that lost a race, or found the anchor ahead of its snapshot, reads the chain
      again; left alone from there on it completes as well. */
  lemma RereadCompletes(w: World, id: nat)
    requires WorldInv(w) && id in w.processes && w.processes[id].phase.AtReread? && w.processes[id].attempt < 5
    requires w.chain != [] && w.anchor.Some?
    ensures var reread := Next(w, Refresh(id));
            var one := Iterate(reread, id);
            Loading(reread, id) && (Finished(one, id, w.chain) || Finished(Iterate(one, id), id, w.chain))
  {
    assert ProcessInv(w.chain, w.processes[id]);
    NextKeepsInv(w, Refresh(id));
    TwoIterationsFinish(Next(w, Refresh(id)), id);
  }

  predicate Finished(w: World, id: nat, chain: seq<Receipt>)
    requires chain != []
  {
    id in w.processes && w.processes[id].phase == Done(None) && w.anchor == Some(chain[|chain| - 1])
  }
}

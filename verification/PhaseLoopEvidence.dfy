/** What the log of a run, fresh or resumed, proves about completed phases and met dependencies. */
module PhaseLoopEvidence {
  import opened WorkflowNode
  import opened PhaseLoop
  import opened PhaseLoopLog
  import opened PhaseLoopOrder
  import opened PhaseLoopEntries

  /** An event concerns node `j`: its own event, or a jump that goes back over it. */
  predicate Touches(e: Event, j: nat) {
    if e.Jumped? then e.target <= j <= e.i else e.i == j
  }

  /** The last event that concerns node `j`. */
  function Standing(log: seq<Event>, j: nat): Option<Event> {
    if log == [] then None else
      var last := log[|log| - 1];
      if Touches(last, j) then Some(last) else Standing(log[..|log| - 1], j)
  }

  lemma {:induction false} StandingAppend(log: seq<Event>, evs: seq<Event>, j: nat)
    ensures Standing(log + evs, j) ==
      if Standing(evs, j).Some? then Standing(evs, j) else Standing(log, j)
  {
    if evs == [] {
      assert log + evs == log;
    } else {
      StandingAppend(log, evs[..|evs| - 1], j);
      assert (log + evs)[..|log + evs| - 1] == log + evs[..|evs| - 1];
    }
  }

  lemma StandingShort(evs: seq<Event>, j: nat)
    requires |evs| <= 3
    ensures |evs| > 0 && Touches(evs[|evs| - 1], j) ==> Standing(evs, j) == Some(evs[|evs| - 1])
    ensures (forall m :: 0 <= m < |evs| ==> !Touches(evs[m], j)) ==> Standing(evs, j) == None
    ensures |evs| > 0 && (forall m :: 0 <= m < |evs| ==> !evs[m].Jumped? && evs[m].i == evs[0].i) && j != evs[0].i ==>
      Standing(evs, j) == None
  {
    if |evs| > 0 {
      StandingShort(evs[..|evs| - 1], j);
    }
  }

  // ---- Phases ----

  /** The log says that the phase of node `j` is done: its last event is its completion, or it was recorded done and
      nothing has concerned it since. */
  predicate PhaseDone(s: Setup, log: seq<Event>, j: nat)
    requires j < |s.nodes|
  {
    match Standing(log, j)
    case None => s.nodes[j].id in s.recorded
    case Some(e) => e == Finished(j) || e == Recovered(j)
  }

  /** A phase record is completed exactly when the log says so. */
  ghost predicate PhasesStand(s: Setup, st: RunState) {
    forall i :: 0 <= i < |s.nodes| && s.nodes[i].kind.Phase? && Rank(s.nodes, i) < |st.phases| ==>
      (st.phases[Rank(s.nodes, i)].status == Completed <==> PhaseDone(s, st.log, i))
  }

  ghost predicate Plain(s: Setup, st: RunState) {
    UniqueIds(s.nodes) && HasRecords(s.nodes, st.phases, st.orche)
  }

  lemma StartStands(s: Setup, st: RunState, k: nat, a: Answer)
    requires Valid(s, st) && st.idx < |s.nodes| && s.nodes[st.idx].kind.Phase? && k < |st.phases|
    ensures
      var st' := StartPhase(s, st, k, a);
      && |st'.phases| == |st.phases|
      && |st'.log| > |st.log|
      && (st'.phases[k].status == Completed <==> st'.place.AtNode?)
  {
  }

  /** The phase at the current node, if any, is completed after the step exactly when the step ends with its
      completion. */
  lemma NodePhaseStands(s: Setup, st: RunState, a: Answer, k: nat)
    requires Valid(s, st) && st.place.AtNode? && st.idx < |s.nodes|
    requires s.nodes[st.idx].kind.Phase? && PhaseIndex(st.phases, s.nodes[st.idx].id) == Some(k)
    ensures
      var st' := StepNode(s, st, a);
      && |st'.phases| == |st.phases|
      && (st'.log == st.log ==> st'.phases == st.phases)
      && (st'.log != st.log ==> (st'.phases[k].status == Completed <==> st'.place.AtNode?))
  {
    NodeStepCases(s, st, a, StepNode(s, st, a));
    if st.phases[k].status != Completed {
      StartStands(s, st, k, a);
    }
  }

  /** What a node round's own events say of the phase of node `i`. */
  lemma NodeLogStands(s: Setup, st: RunState, st': RunState, evs: seq<Event>, i: nat)
    requires i < |s.nodes| && s.nodes[i].kind.Phase? && NodeRound(s, st, st', evs)
    ensures i != st.idx || evs == [] ==> PhaseDone(s, st.log + evs, i) == PhaseDone(s, st.log, i)
    ensures i == st.idx && evs != [] ==> (PhaseDone(s, st.log + evs, i) <==> st'.place.AtNode?)
  {
    StandingAppend(st.log, evs, i);
    StandingShort(evs, i);
  }

  lemma NodeStandsHere(s: Setup, st: RunState, a: Answer, evs: seq<Event>)
    requires Valid(s, st) && st.place.AtNode? && Plain(s, st) && PhasesStand(s, st)
    requires StepNode(s, st, a).log == st.log + evs && NodeRound(s, st, StepNode(s, st, a), evs)
    requires st.idx < |s.nodes| && s.nodes[st.idx].kind.Phase?
    ensures Rank(s.nodes, st.idx) < |StepNode(s, st, a).phases| == |st.phases|
    ensures StepNode(s, st, a).phases[Rank(s.nodes, st.idx)].status == Completed
       <==> PhaseDone(s, st.log + evs, st.idx)
  {
    var k := Rank(s.nodes, st.idx);
    RankAt(s.nodes, st.idx);
    RecordAtRank(s.nodes, st.phases, st.idx);
    NodePhaseStands(s, st, a, k);
    NodeLogStands(s, st, StepNode(s, st, a), evs, st.idx);
    assert evs == [] <==> st.log + evs == st.log;
  }

  lemma NodeStandsElsewhere(s: Setup, st: RunState, st': RunState, evs: seq<Event>, i: nat)
    requires st.idx <= |s.nodes| && Plain(s, st) && PhasesStand(s, st) && Frame(s, st, st')
    requires st'.log == st.log + evs && NodeRound(s, st, st', evs)
    requires i < |s.nodes| && s.nodes[i].kind.Phase? && Rank(s.nodes, i) < |st'.phases| && i != st.idx
    ensures st'.phases[Rank(s.nodes, i)].status == Completed <==> PhaseDone(s, st'.log, i)
  {
    NodeLogStands(s, st, st', evs, i);
    RankAt(s.nodes, i);
    assert st.phases[Rank(s.nodes, i)].id == s.nodes[i].id;
  }

  lemma NodeStands(s: Setup, st: RunState, a: Answer)
    requires Valid(s, st) && st.place.AtNode? && Plain(s, st) && PhasesStand(s, st)
    ensures PhasesStand(s, StepNode(s, st, a))
  {
    NodeFrame(s, st, a);
    NodeGrows(s, st, a);
    var st' := StepNode(s, st, a);
    var evs :| st'.log == st.log + evs && NodeRound(s, st, st', evs);
    forall i | 0 <= i < |s.nodes| && s.nodes[i].kind.Phase? && Rank(s.nodes, i) < |st'.phases|
      ensures st'.phases[Rank(s.nodes, i)].status == Completed <==> PhaseDone(s, st'.log, i)
    {
      if i == st.idx {
        NodeStandsHere(s, st, a, evs);
      } else {
        NodeStandsElsewhere(s, st, st', evs, i);
      }
    }
  }

  /** The shape of a review round's events. */
  predicate RoundEvents(at: nat, idx: nat, atNode: bool, evs: seq<Event>) {
    && 0 < |evs| <= 3 && evs[0].Reviewed?
    && (forall m :: 0 <= m < |evs| ==>
          evs[m].i == at && !evs[m].Recovered? && (evs[m].Jumped? || evs[m].Finished? ==> m == |evs| - 1))
    && (|evs| == 3 ==> evs[1] == Waived(at) && evs[2] == Finished(at))
    && (evs[|evs| - 1].Jumped? ==> evs[|evs| - 1].target == idx)
    && (evs[|evs| - 1] == Finished(at) <==> atNode && !evs[|evs| - 1].Jumped?)
  }

  lemma ReviewRoundEvents(s: Setup, st: RunState, st': RunState, evs: seq<Event>)
    requires Valid(s, st) && st.place.InReview? && ReviewRound(s, st, st', evs)
    ensures RoundEvents(st.idx, st'.idx, st'.place.AtNode?, evs)
  {
  }

  /** A review round's own events, seen from node `i`. */
  lemma StandingInRound(evs: seq<Event>, at: nat, idx: nat, atNode: bool, i: nat)
    requires RoundEvents(at, idx, atNode, evs)
    ensures i == at ==>
      && Standing(evs, i).Some? && !Standing(evs, i).value.Recovered?
      && (Standing(evs, i).value == Finished(at) <==> evs[|evs| - 1] == Finished(at))
    ensures i != at && evs[|evs| - 1].Jumped? && Touches(evs[|evs| - 1], i) ==> Standing(evs, i) == Some(evs[|evs| - 1])
    ensures i != at && !(evs[|evs| - 1].Jumped? && Touches(evs[|evs| - 1], i)) ==> Standing(evs, i) == None
  {
    var last := |evs| - 1;
    StandingShort(evs, i);
    StandingShort(evs[..last], i);
    if evs[last].Jumped? && !Touches(evs[last], i) {
      assert Standing(evs, i) == Standing(evs[..last], i);
      assert last > 0 && evs[..last][last - 1] == evs[last - 1];
    }
  }

  /** What a review round's own events say of the phase of node `i`. */
  lemma ReviewLogStands(s: Setup, log: seq<Event>, evs: seq<Event>, at: nat, idx: nat, atNode: bool, i: nat)
    requires i < |s.nodes| && RoundEvents(at, idx, atNode, evs)
    ensures i == at ==> (PhaseDone(s, log + evs, i) <==> atNode && !evs[|evs| - 1].Jumped?)
    ensures i != at ==> (PhaseDone(s, log + evs, i) <==>
      PhaseDone(s, log, i) && !(evs[|evs| - 1].Jumped? && idx <= i <= at))
  {
    StandingAppend(log, evs, i);
    StandingInRound(evs, at, idx, atNode, i);
  }

  lemma ReviewStandsAt(s: Setup, st: RunState, st': RunState, evs: seq<Event>, i: nat)
    requires Valid(s, st) && st.place.InReview? && Plain(s, st) && PhasesStand(s, st)
    requires ReviewFrame(s, st, st') && st'.log == st.log + evs
    requires RoundEvents(st.idx, st'.idx, st'.place.AtNode?, evs)
    requires i < |s.nodes| && s.nodes[i].kind.Phase? && Rank(s.nodes, i) < |st'.phases|
    ensures st'.phases[Rank(s.nodes, i)].status == Completed <==> PhaseDone(s, st'.log, i)
  {
    assert st'.log[|st'.log| - 1] == evs[|evs| - 1];
    ReviewLogStands(s, st.log, evs, st.idx, st'.idx, st'.place.AtNode?, i);
    KeptIndex(s, st);
    if i != st.idx {
      RankDistinct(s.nodes, i, st.idx);
      if JustJumped(st') {
        JumpedPhases(s, st, st', i);
      }
    }
  }

  lemma ReviewStands(s: Setup, st: RunState, a: Answer)
    requires Valid(s, st) && st.place.InReview? && Plain(s, st) && PhasesStand(s, st)
    ensures PhasesStand(s, StepReview(s, st, a))
  {
    var st' := StepReview(s, st, a);
    ReviewFrames(s, st, a);
    ReviewGrows(s, st, a);
    var evs :| st'.log == st.log + evs && ReviewRound(s, st, st', evs);
    ReviewRoundEvents(s, st, st', evs);
    forall i | 0 <= i < |s.nodes| && s.nodes[i].kind.Phase? && Rank(s.nodes, i) < |st'.phases|
      ensures st'.phases[Rank(s.nodes, i)].status == Completed <==> PhaseDone(s, st'.log, i)
    {
      ReviewStandsAt(s, st, st', evs, i);
    }
  }

  lemma PlainStays(s: Setup, st: RunState, st': RunState)
    requires Plain(s, st) && |st'.phases| == |st.phases| && st'.orche.Keys == st.orche.Keys
    requires forall k :: 0 <= k < |st.phases| ==> st'.phases[k].id == st.phases[k].id
    ensures Plain(s, st')
  {
  }

  // ---- Records and skips ----

  /** The ids that branch decisions have switched off. */
  function SkippedBy(log: seq<Event>): set<string> {
    if log == [] then {}
    else SkippedBy(log[..|log| - 1]) + if log[|log| - 1].Acted? then log[|log| - 1].skips else {}
  }

  /** The log says that the record of node `j` is closed: it was recorded done, or the last of its own events and the
      marks on it closes it. */
  predicate RecordDone(s: Setup, log: seq<Event>, j: nat)
    requires j < |s.nodes|
  {
    var id := s.nodes[j].id;
    if log == [] then id in s.recorded
    else
      var last := log[|log| - 1];
      if last == Finished(j) then true
      else if last == Started(j) then false
      else if last.Acted? && id in last.marks then last.marks[id]
      else RecordDone(s, log[..|log| - 1], j)
  }

  lemma {:induction false} SkippedAppend(log: seq<Event>, evs: seq<Event>)
    ensures SkippedBy(log + evs) == SkippedBy(log) + SkippedBy(evs)
  {
    if evs == [] {
      assert log + evs == log;
    } else {
      SkippedAppend(log, evs[..|evs| - 1]);
      assert (log + evs)[..|log + evs| - 1] == log + evs[..|evs| - 1];
    }
  }

  lemma SkippedShort(evs: seq<Event>)
    requires |evs| <= 3
    ensures SkippedBy(evs) ==
      (if |evs| > 0 && evs[0].Acted? then evs[0].skips else {}) +
      (if |evs| > 1 && evs[1].Acted? then evs[1].skips else {}) +
      (if |evs| > 2 && evs[2].Acted? then evs[2].skips else {})
  {
    if |evs| > 0 {
      var e1 := evs[..|evs| - 1];
      if |e1| > 0 {
        var e2 := e1[..|e1| - 1];
        if |e2| > 0 {
          assert e2[..|e2| - 1] == [];
        }
      }
    }
  }

  lemma RecordSnoc(s: Setup, log: seq<Event>, e: Event, j: nat)
    requires j < |s.nodes|
    ensures RecordDone(s, log + [e], j) ==
      if e == Finished(j) then true
      else if e == Started(j) then false
      else if e.Acted? && s.nodes[j].id in e.marks then e.marks[s.nodes[j].id]
      else RecordDone(s, log, j)
  {
    assert (log + [e])[..|log|] == log;
  }

  /** What a step's own events say of a record. */
  lemma RecordAfter(s: Setup, log: seq<Event>, evs: seq<Event>, j: nat)
    requires j < |s.nodes| && |evs| <= 3
    ensures evs == [] ==> RecordDone(s, log + evs, j) == RecordDone(s, log, j)
    ensures |evs| == 1 ==> log + evs == log + [evs[0]]
    ensures |evs| == 2 ==> log + evs == log + [evs[0]] + [evs[1]]
    ensures |evs| == 3 ==> log + evs == log + [evs[0]] + [evs[1]] + [evs[2]]
  {
    if evs == [] {
      assert log + evs == log;
    }
  }

  /** While the run goes on, the skipped ids are those the log switches off, and a record that is not skipped is closed
      exactly when the log says so. */
  ghost predicate RecordsStand(s: Setup, st: RunState) {
    && st.skipped == SkippedBy(st.log)
    && (!st.place.Ended? ==>
          forall j :: 0 <= j < |s.nodes| && s.nodes[j].IsOrche() && s.nodes[j].id !in st.skipped ==>
            RecordStands(s, st, j))
  }

  ghost predicate RecordStands(s: Setup, st: RunState, j: nat)
    requires j < |s.nodes|
  {
    s.nodes[j].id in st.orche && (Closing(st.orche[s.nodes[j].id]) <==> RecordDone(s, st.log, j))
  }

  lemma OrcheRecordAfter(s: Setup, log: seq<Event>, i: nat, acted: Event, j: nat)
    requires j < |s.nodes| && ActedAt(acted, i)
    ensures RecordDone(s, log + [Started(i)] + [acted] + [Finished(i)], j) ==
      if i == j then true
      else if s.nodes[j].id in acted.marks then acted.marks[s.nodes[j].id]
      else RecordDone(s, log, j)
  {
    RecordSnoc(s, log, Started(i), j);
    RecordSnoc(s, log + [Started(i)], acted, j);
    RecordSnoc(s, log + [Started(i)] + [acted], Finished(i), j);
  }

  /** What an orchestration node's step makes of a record, told by the record and by the log. */
  lemma OrcheMakes(s: Setup, st: RunState, a: OrcheAnswer, j: nat)
    requires Valid(s, st) && UniqueIds(s.nodes) && st.idx < |s.nodes| && j < |s.nodes|
    requires s.nodes[j].id in st.orche && StepOrche(s, st, a).place.AtNode? && StepOrche(s, st, a).log != st.log
    ensures
      var i, id, st' := st.idx, s.nodes[j].id, StepOrche(s, st, a);
      var marks := Effect(s.nodes, i, a.marks);
      && a.Output? && id in st'.orche
      && st'.log == st.log + [Started(i)] + [Deed(s, i, a)] + [Finished(i)]
      && (Closing(st'.orche[id]) <==>
            if i == j then true else if id in marks then marks[id] else Closing(st.orche[id]))
  {
    assert st.idx != j ==> s.nodes[st.idx].id != s.nodes[j].id;
  }

  lemma OrcheStands(s: Setup, st: RunState, a: OrcheAnswer, j: nat)
    requires Valid(s, st) && st.place.AtNode? && UniqueIds(s.nodes) && st.idx < |s.nodes| && s.nodes[st.idx].IsOrche()
    requires j < |s.nodes| && RecordStands(s, st, j) && StepOrche(s, st, a).place.AtNode?
    ensures RecordStands(s, StepOrche(s, st, a), j)
  {
    if StepOrche(s, st, a).log != st.log {
      var i := st.idx;
      OrcheMakes(s, st, a, j);
      OrcheRecordAfter(s, st.log, i, Deed(s, i, a), j);
    }
  }

  /** The skips of an orchestration node's step are those in its one report. */
  lemma OrcheReports(s: Setup, st: RunState, a: OrcheAnswer) returns (evs: seq<Event>)
    requires Valid(s, st) && st.idx < |s.nodes|
    ensures StepOrche(s, st, a).log == st.log + evs && |evs| <= 3
    ensures evs == [] || (|evs| > 1 && evs[0].Started? && evs[1].Acted? && (|evs| > 2 ==> evs[2].Finished?))
    ensures StepOrche(s, st, a).skipped == st.skipped + if evs == [] then {} else evs[1].skips
  {
    var i := st.idx;
    var id := s.nodes[i].id;
    if id in st.orche && Closing(st.orche[id]) {
      evs := [];
    } else {
      evs := [Started(i), Deed(s, i, a)] + if a.Output? && !a.waiting then [Finished(i)] else [];
    }
  }

  lemma OrcheSkips(s: Setup, st: RunState, a: OrcheAnswer)
    requires Valid(s, st) && st.idx < |s.nodes| && st.skipped == SkippedBy(st.log)
    ensures StepOrche(s, st, a).skipped == SkippedBy(StepOrche(s, st, a).log)
  {
    var evs := OrcheReports(s, st, a);
    SkippedAppend(st.log, evs);
    SkippedShort(evs);
  }

  lemma PhaseEventsSilent(s: Setup, st: RunState, st': RunState, evs: seq<Event>, j: nat)
    requires st.idx < |s.nodes| && !OrcheAt(s.nodes, st.idx) && NodeRound(s, st, st', evs) && st'.log == st.log + evs
    requires j < |s.nodes| && s.nodes[j].IsOrche()
    ensures RecordDone(s, st'.log, j) == RecordDone(s, st.log, j) && SkippedBy(st'.log) == SkippedBy(st.log)
  {
    SkippedAppend(st.log, evs);
    SkippedShort(evs);
    RecordAfter(s, st.log, evs, j);
    if |evs| > 0 {
      RecordSnoc(s, st.log, evs[0], j);
    }
    if |evs| > 1 {
      RecordSnoc(s, st.log + [evs[0]], evs[1], j);
    }
  }

  lemma ReviewEventsSilent(s: Setup, st: RunState, st': RunState, evs: seq<Event>, j: nat)
    requires Valid(s, st) && st.place.InReview? && ReviewRound(s, st, st', evs) && st'.log == st.log + evs
    requires j < |s.nodes| && s.nodes[j].IsOrche()
    ensures RecordDone(s, st'.log, j) == RecordDone(s, st.log, j)
  {
    RecordAfter(s, st.log, evs, j);
    RecordSnoc(s, st.log, evs[0], j);
    if |evs| > 1 {
      RecordSnoc(s, st.log + [evs[0]], evs[1], j);
    }
    if |evs| > 2 {
      RecordSnoc(s, st.log + [evs[0]] + [evs[1]], evs[2], j);
    }
  }

  lemma PhaseSkips(s: Setup, st: RunState, a: Answer)
    requires Valid(s, st) && st.place.AtNode? && st.idx < |s.nodes| && !s.nodes[st.idx].IsOrche()
    ensures SkippedBy(StepPhase(s, st, a).log) == SkippedBy(st.log) && StepPhase(s, st, a).skipped == st.skipped
  {
    PhaseKeepsOrche(s, st, a);
    PhaseGrows(s, st, a);
    var st' := StepPhase(s, st, a);
    var evs :| st'.log == st.log + evs && NodeRound(s, st, st', evs);
    SkippedAppend(st.log, evs);
    SkippedShort(evs);
  }

  lemma NodeSkips(s: Setup, st: RunState, a: Answer)
    requires Valid(s, st) && st.place.AtNode? && st.skipped == SkippedBy(st.log)
    ensures StepNode(s, st, a).skipped == SkippedBy(StepNode(s, st, a).log)
  {
    NodeStepCases(s, st, a, StepNode(s, st, a));
    if st.idx < |s.nodes| {
      if s.nodes[st.idx].IsOrche() {
        OrcheSkips(s, st, a.orche);
      } else {
        PhaseSkips(s, st, a);
      }
    }
  }

  lemma NodeRecords(s: Setup, st: RunState, a: Answer)
    requires Valid(s, st) && st.place.AtNode? && UniqueIds(s.nodes) && RecordsStand(s, st)
    ensures RecordsStand(s, StepNode(s, st, a))
  {
    var st' := StepNode(s, st, a);
    NodeSkips(s, st, a);
    NodeFrame(s, st, a);
    forall j | !st'.place.Ended? && 0 <= j < |s.nodes| && s.nodes[j].IsOrche() && s.nodes[j].id !in st'.skipped
      ensures RecordStands(s, st', j)
    {
      assert RecordStands(s, st, j);
      NodeRecord(s, st, a, j);
    }
  }

  lemma NodeRecord(s: Setup, st: RunState, a: Answer, j: nat)
    requires Valid(s, st) && st.place.AtNode? && UniqueIds(s.nodes) && j < |s.nodes| && s.nodes[j].IsOrche()
    requires RecordStands(s, st, j) && s.nodes[j].id !in st.skipped && !StepNode(s, st, a).place.Ended?
    ensures RecordStands(s, StepNode(s, st, a), j)
  {
    var st' := StepNode(s, st, a);
    NodeStepCases(s, st, a, st');
    if st.idx < |s.nodes| && s.nodes[st.idx].IsOrche() && st' == StepOrche(s, st, a.orche) {
      OrcheStatusOnly(s, st, a.orche);
      OrcheStands(s, st, a.orche, j);
    } else if st.idx < |s.nodes| && !s.nodes[st.idx].IsOrche() && st' == StepPhase(s, st, a) {
      PhaseKeepsOrche(s, st, a);
      PhaseGrows(s, st, a);
      var evs :| st'.log == st.log + evs && NodeRound(s, st, st', evs);
      PhaseEventsSilent(s, st, st', evs, j);
    }
  }

  lemma OrcheStatusOnly(s: Setup, st: RunState, a: OrcheAnswer)
    requires st.place.AtNode? && st.idx < |s.nodes|
    ensures !StepOrche(s, st, a).place.InReview?
  {
  }

  lemma ReviewSkips(st: RunState, st': RunState, s: Setup, evs: seq<Event>)
    requires Valid(s, st) && st.place.InReview? && ReviewRound(s, st, st', evs)
    ensures SkippedBy(st.log + evs) == SkippedBy(st.log)
  {
    SkippedAppend(st.log, evs);
    SkippedShort(evs);
  }

  lemma ReviewRecords(s: Setup, st: RunState, st': RunState, evs: seq<Event>)
    requires Valid(s, st) && st.place.InReview? && RecordsStand(s, st)
    requires ReviewRound(s, st, st', evs) && st'.log == st.log + evs
    requires st'.skipped == st.skipped && st'.orche == st.orche
    ensures RecordsStand(s, st')
  {
    ReviewSkips(st, st', s, evs);
    forall j | 0 <= j < |s.nodes| && s.nodes[j].IsOrche() && s.nodes[j].id !in st'.skipped
      ensures RecordStands(s, st', j)
    {
      assert RecordStands(s, st, j);
      ReviewEventsSilent(s, st, st', evs, j);
    }
  }

  // ---- Dependencies at the time of a start ----

  /** At this point of the log the dependency `d` is done: it is branch-skipped, or its phase or record is done. */
  ghost predicate Justified(s: Setup, log: seq<Event>, d: string) {
    || d in SkippedBy(log)
    || exists j :: 0 <= j < |s.nodes| && s.nodes[j].id == d &&
         ((s.nodes[j].kind.Phase? && PhaseDone(s, log, j)) || (s.nodes[j].IsOrche() && RecordDone(s, log, j)))
  }

  /** Every start in the log came when all dependencies of its node were done. */
  ghost predicate StartsJustified(s: Setup, log: seq<Event>) {
    forall m :: 0 <= m < |log| && log[m].Started? && log[m].i < |s.nodes| ==>
      forall d :: d in s.nodes[log[m].i].dependsOn ==> Justified(s, log[..m], d)
  }

  ghost predicate Evidence(s: Setup, st: RunState) {
    && Plain(s, st)
    && PhasesStand(s, st)
    && RecordsStand(s, st)
    && StartsJustified(s, st.log)
  }

  lemma MetIsJustified(s: Setup, st: RunState, d: string)
    requires Plain(s, st) && PhasesStand(s, st) && RecordsStand(s, st) && !st.place.Ended? && Met(st, d)
    ensures Justified(s, st.log, d)
  {
    if d !in st.skipped {
      var k := PhaseIndex(st.phases, d);
      if k.Some? {
        var j := RankReached(s.nodes, k.value);
        RankAt(s.nodes, j);
        assert PhaseDone(s, st.log, j);
      } else {
        var j :| 0 <= j < |s.nodes| && s.nodes[j].IsOrche() && s.nodes[j].id == d;
        assert RecordStands(s, st, j);
      }
    }
  }

  lemma StartsStay(s: Setup, log: seq<Event>, evs: seq<Event>)
    requires StartsJustified(s, log) && forall m :: 0 <= m < |evs| ==> !evs[m].Started? || m == 0
    requires evs != [] && evs[0].Started? && evs[0].i < |s.nodes| ==>
      forall d :: d in s.nodes[evs[0].i].dependsOn ==> Justified(s, log, d)
    ensures StartsJustified(s, log + evs)
  {
    var log' := log + evs;
    forall m, d | 0 <= m < |log'| && log'[m].Started? && log'[m].i < |s.nodes| && d in s.nodes[log'[m].i].dependsOn
      ensures Justified(s, log'[..m], d)
    {
      if m < |log| {
        assert log'[m] == log[m] && log'[..m] == log[..m];
        assert Justified(s, log[..m], d);
      } else {
        assert log'[m] == evs[m - |log|];
        assert log'[..m] == log;
      }
    }
  }

  lemma DepsJustified(s: Setup, st: RunState, i: nat)
    requires Plain(s, st) && PhasesStand(s, st) && RecordsStand(s, st) && !st.place.Ended?
    requires i < |s.nodes| && AllMet(st, s.nodes[i].dependsOn)
    ensures forall d :: d in s.nodes[i].dependsOn ==> Justified(s, st.log, d)
  {
    forall d | d in s.nodes[i].dependsOn
      ensures Justified(s, st.log, d)
    {
      MetIsJustified(s, st, d);
    }
  }

  lemma StartsOnce(s: Setup, st: RunState, st': RunState, evs: seq<Event>)
    requires NodeRound(s, st, st', evs)
    ensures forall m :: 0 <= m < |evs| && evs[m].Started? ==> m == 0 && evs[m].i == st.idx
  {
  }

  lemma NodeStarts(s: Setup, st: RunState, a: Answer, evs: seq<Event>)
    requires Valid(s, st) && st.place.AtNode? && Evidence(s, st)
    requires StepNode(s, st, a).log == st.log + evs && NodeRound(s, st, StepNode(s, st, a), evs)
    ensures StartsJustified(s, st.log + evs)
  {
    StartsOnce(s, st, StepNode(s, st, a), evs);
    if evs != [] {
      assert |st.log + evs| > |st.log|;
      StartedDeps(s, st, a);
    }
    StartsStay(s, st.log, evs);
  }

  lemma StartedDeps(s: Setup, st: RunState, a: Answer)
    requires Valid(s, st) && st.place.AtNode? && Evidence(s, st) && StepNode(s, st, a).log != st.log
    ensures st.idx < |s.nodes| && forall d :: d in s.nodes[st.idx].dependsOn ==> Justified(s, st.log, d)
  {
    StartedFacts(s, st, a);
    DepsJustified(s, st, st.idx);
  }

  lemma NodeEvidence(s: Setup, st: RunState, a: Answer)
    requires Valid(s, st) && st.place.AtNode? && Evidence(s, st)
    ensures Evidence(s, StepNode(s, st, a))
  {
    var st' := StepNode(s, st, a);
    NodeStands(s, st, a);
    NodeRecords(s, st, a);
    NodeGrows(s, st, a);
    var evs :| st'.log == st.log + evs && NodeRound(s, st, st', evs);
    NodeStarts(s, st, a, evs);
    NodeFrame(s, st, a);
    PlainStays(s, st, st');
  }

  lemma ReviewStarts(s: Setup, st: RunState, st': RunState, evs: seq<Event>)
    requires Valid(s, st) && st.place.InReview? && StartsJustified(s, st.log) && ReviewRound(s, st, st', evs)
    ensures StartsJustified(s, st.log + evs)
  {
    StartsStay(s, st.log, evs);
  }

  lemma ReviewKeeps(s: Setup, st: RunState, a: Answer)
    requires Valid(s, st) && st.place.InReview? && Plain(s, st)
    ensures Plain(s, StepReview(s, st, a))
    ensures StepReview(s, st, a).skipped == st.skipped && StepReview(s, st, a).orche == st.orche
  {
    ReviewFrames(s, st, a);
    PlainStays(s, st, StepReview(s, st, a));
  }

  lemma ReviewEvidence(s: Setup, st: RunState, a: Answer)
    requires Valid(s, st) && st.place.InReview? && Evidence(s, st)
    ensures Evidence(s, StepReview(s, st, a))
  {
    var st' := StepReview(s, st, a);
    ReviewStands(s, st, a);
    ReviewKeeps(s, st, a);
    ReviewGrows(s, st, a);
    var evs :| st'.log == st.log + evs && ReviewRound(s, st, st', evs);
    ReviewRecords(s, st, st', evs);
    ReviewStarts(s, st, st', evs);
  }

  lemma StepEvidence(s: Setup, st: RunState, a: Answer)
    requires Valid(s, st) && !st.place.Ended? && Evidence(s, st)
    ensures Evidence(s, Step(s, st, a))
  {
    if st.place.AtNode? {
      NodeEvidence(s, st, a);
    } else {
      ReviewEvidence(s, st, a);
    }
  }

  lemma RunEvidence(s: Setup, env: Env, t: nat, st: RunState)
    requires Valid(s, st) && Evidence(s, st)
    ensures Evidence(s, Run(s, env, t, st))
  {
    var P := (x: RunState) => Evidence(s, x);
    forall x: RunState, u: nat | Valid(s, x) && !x.place.Ended? && P(x)
      ensures P(Step(s, x, env(u)))
    {
      StepEvidence(s, x, env(u));
    }
    RunKeeps(s, env, t, st, P);
  }

  /** The beginning of a fresh run or of a resumed one. */
  ghost predicate Starts(s: Setup, st: RunState) {
    && Begins(st) && Plain(s, st) && st.skipped == {}
    && s.recorded == Recorded(st.phases, st.orche)
  }

  lemma FreshStarts(nodes: seq<Node>)
    requires UniqueIds(nodes)
    ensures Starts(FreshSetup(nodes), FreshState(nodes))
  {
    var st := FreshState(nodes);
    assert forall i :: 0 <= i < |nodes| && nodes[i].IsOrche() ==> nodes[i] in nodes;
  }

  lemma ResumeStarts(nodes: seq<Node>, phases: seq<PhaseState>, orche: map<string, Status>)
    requires UniqueIds(nodes) && HasRecords(nodes, phases, orche)
    ensures Starts(ResumeSetup(nodes, phases, orche), StartState(phases, orche))
  {
  }

  lemma StartEvidence(s: Setup, st: RunState)
    requires Starts(s, st)
    ensures Evidence(s, st)
  {
    forall i | 0 <= i < |s.nodes| && s.nodes[i].kind.Phase? && Rank(s.nodes, i) < |st.phases|
      ensures st.phases[Rank(s.nodes, i)].status == Completed <==> PhaseDone(s, st.log, i)
    {
      PhaseRecorded(s, st, i);
    }
    forall j | 0 <= j < |s.nodes| && s.nodes[j].IsOrche()
      ensures RecordStands(s, st, j)
    {
      OrcheRecorded(s, st, j);
    }
  }

  lemma PhaseRecorded(s: Setup, st: RunState, i: nat)
    requires Starts(s, st) && i < |s.nodes| && s.nodes[i].kind.Phase?
    ensures Rank(s.nodes, i) < |st.phases|
    ensures st.phases[Rank(s.nodes, i)].status == Completed <==> s.nodes[i].id in s.recorded
  {
    RankAt(s.nodes, i);
    RecordAtRank(s.nodes, st.phases, i);
    if s.nodes[i].id in s.recorded {
      assert s.nodes[i].id !in st.orche;
      var k :| 0 <= k < |st.phases| && st.phases[k].status == Completed && st.phases[k].id == s.nodes[i].id;
      var j := RankReached(s.nodes, k);
      RankAt(s.nodes, j);
      assert i == j;
    }
  }

  lemma OrcheRecorded(s: Setup, st: RunState, j: nat)
    requires Starts(s, st) && j < |s.nodes| && s.nodes[j].IsOrche()
    ensures s.nodes[j].id in st.orche && (Closing(st.orche[s.nodes[j].id]) <==> s.nodes[j].id in s.recorded)
  {
    RecordAtRank(s.nodes, st.phases, j);
  }

  /** In every run, fresh or resumed, whatever is answered, each node was started at a point of the log where each
      of its dependencies was done. */
  lemma StartsInOrder(s: Setup, st: RunState, env: Env)
    requires Starts(s, st)
    ensures StartsJustified(s, Run(s, env, 0, st).log)
  {
    StartEvidence(s, st);
    RunEvidence(s, env, 0, st);
  }
}

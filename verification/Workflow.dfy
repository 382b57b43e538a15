/**
  The preservation workflow of one run (src/rab/preservation.py): a stored record, a numbered event
  log, and methods that drive the record through the transition table. Collaborators (capture
  devices, fixity, analysis, malware providers, identity, products, reports) answer as they like or
  raise; the answers are parameters.
*/
module Workflow {
  import opened Common

  datatype WorkflowState =
    | CREATED | WAITING_FOR_MEDIA | MEDIA_DETECTED | INSPECTING | NEEDS_METADATA | READY_TO_CAPTURE
    | CAPTURING | VERIFYING | PRESERVED | ANALYZING | MALWARE_ANALYSIS | IDENTIFYING | BUILDING_PRODUCTS
    | COMPLETE | NEEDS_OPERATOR | COMPLETE_WITH_WARNINGS | PARTIAL | UNSUPPORTED | TOOL_MISSING
    | DEVICE_REMOVED | FAILED | CANCELLED

  predicate Terminal(s: WorkflowState) {
    s in {COMPLETE, COMPLETE_WITH_WARNINGS, PARTIAL, UNSUPPORTED, FAILED, CANCELLED}
  }

  /** `TRANSITIONS`. */
  function Allowed(s: WorkflowState): set<WorkflowState> {
    match s
    case CREATED => {WAITING_FOR_MEDIA, MEDIA_DETECTED, NEEDS_OPERATOR, CANCELLED}
    case WAITING_FOR_MEDIA => {MEDIA_DETECTED, CANCELLED}
    case MEDIA_DETECTED => {INSPECTING, NEEDS_OPERATOR, CANCELLED}
    case INSPECTING =>
      {NEEDS_METADATA, READY_TO_CAPTURE, NEEDS_OPERATOR, TOOL_MISSING, UNSUPPORTED, FAILED, CANCELLED}
    case NEEDS_METADATA => {READY_TO_CAPTURE, NEEDS_OPERATOR, CANCELLED}
    case READY_TO_CAPTURE => {CAPTURING, NEEDS_OPERATOR, FAILED, CANCELLED}
    case CAPTURING => {VERIFYING, PARTIAL, DEVICE_REMOVED, FAILED, CANCELLED}
    case DEVICE_REMOVED => {PARTIAL, FAILED, CANCELLED}
    case VERIFYING => {PRESERVED, NEEDS_OPERATOR, PARTIAL, FAILED, CANCELLED}
    case PRESERVED => {ANALYZING, IDENTIFYING, BUILDING_PRODUCTS, COMPLETE, COMPLETE_WITH_WARNINGS, CANCELLED}
    case ANALYZING => {MALWARE_ANALYSIS, IDENTIFYING, COMPLETE_WITH_WARNINGS, NEEDS_OPERATOR, FAILED, CANCELLED}
    case MALWARE_ANALYSIS => {IDENTIFYING, COMPLETE_WITH_WARNINGS, CANCELLED}
    case IDENTIFYING => {BUILDING_PRODUCTS, COMPLETE_WITH_WARNINGS, CANCELLED}
    case BUILDING_PRODUCTS => {COMPLETE, COMPLETE_WITH_WARNINGS, CANCELLED}
    case NEEDS_OPERATOR => {READY_TO_CAPTURE, ANALYZING, MALWARE_ANALYSIS, IDENTIFYING, CANCELLED}
    case TOOL_MISSING => {READY_TO_CAPTURE, COMPLETE_WITH_WARNINGS, CANCELLED}
    case _ => {}
  }

  datatype Profile = Quick | Standard | Conservative {
    function Repeats(): nat { if this == Conservative then 2 else 1 }

    predicate RequiresMatch() { this == Conservative }

    predicate ScansMalware() { this != Quick }

    function Products(): nat { match this case Quick => 2 case Standard => 4 case Conservative => 6 }
  }

  type ObjectId = string
  type JobId = string

  /** The stored run record. `completed` says whether `completed_at` is set. */
  datatype Run = Run(state: WorkflowState, profile: Profile, completed: bool, candidate: bool, captures: nat,
                     objects: seq<ObjectId>, analysisJobs: seq<JobId>, malwareJobs: seq<JobId>, identified: bool,
                     built: nat, warned: bool, failures: nat, reviews: nat, eventCount: nat)

  datatype What = Created | Moved(from: WorkflowState, to: WorkflowState) | Recovered | Noted

  datatype Event = Event(sequence: nat, what: What)

  /** How a method ends: normally, by an exception of the transition table, or by another one. */
  datatype Ending = Returned | Forbidden | Refused | Raised

  // ---------------------------------------------------------------- the log

  /** The state that replaying the log leads to; a recovery jumps to PRESERVED. */
  function Replay(events: seq<Event>): WorkflowState {
    if events == [] then CREATED
    else
      match events[|events| - 1].what
      case Created => CREATED
      case Moved(_, to) => to
      case Recovered => PRESERVED
      case Noted => Replay(events[..|events| - 1])
  }

  /** The event has its number; if it is a move it is a permitted one from the state that the log had
      led to, and a recovery does not leave a terminal state. */
  predicate LegalAt(events: seq<Event>, i: nat)
    requires i < |events|
  {
    var e := events[i];
    && e.sequence == i + 1
    && (e.what.Created? <==> i == 0)
    && (e.what.Moved? ==> e.what.from == Replay(events[..i]) && e.what.to in Allowed(e.what.from))
    && (e.what.Recovered? ==> !Terminal(Replay(events[..i])))
  }

  ghost predicate Legal(events: seq<Event>) {
    forall i :: 0 <= i < |events| ==> LegalAt(events, i)
  }

  lemma LegalAppend(events: seq<Event>, what: What)
    requires Legal(events) && events != [] && !what.Created?
    requires what.Moved? ==> what.from == Replay(events) && what.to in Allowed(what.from)
    requires what.Recovered? ==> !Terminal(Replay(events))
    ensures Legal(events + [Event(|events| + 1, what)])
    ensures Replay(events + [Event(|events| + 1, what)])
            == match what case Moved(_, to) => to case Recovered => PRESERVED case _ => Replay(events)
  {
    hide Allowed, Terminal;
    var e := Event(|events| + 1, what);
    var all := events + [e];
    assert all[..|events|] == events;
    forall i | 0 <= i < |events|
      ensures LegalAt(all, i)
    {
      assert LegalAt(events, i) && all[..i] == events[..i] && all[i] == events[i];
    }
  }

  lemma TerminalIsFinal(s: WorkflowState)
    ensures Terminal(s) <==> Allowed(s) == {}
  {}

  /** The moves of the capture phase. */
  lemma CaptureMoves()
    ensures {FAILED, CAPTURING} <= Allowed(READY_TO_CAPTURE) && {VERIFYING, FAILED, PARTIAL} <= Allowed(CAPTURING)
    ensures {NEEDS_OPERATOR, PRESERVED} <= Allowed(VERIFYING)
    ensures !Terminal(READY_TO_CAPTURE) && !Terminal(CAPTURING) && !Terminal(VERIFYING)
    ensures !Terminal(NEEDS_OPERATOR) && !Terminal(PRESERVED)
  {}

  /** Terminal states are absorbing in every legal log: nothing is moved or recovered after one. */
  lemma {:induction false} TerminalAbsorbs(events: seq<Event>, i: nat, j: nat)
    requires Legal(events) && 0 < i <= j <= |events| && Terminal(Replay(events[..i]))
    ensures Replay(events[..j]) == Replay(events[..i])
    decreases j
  {
    if i < j {
      TerminalAbsorbs(events, i, j - 1);
      assert events[..j][..j - 1] == events[..j - 1] && LegalAt(events, j - 1);
      assert Allowed(Replay(events[..i])) == {};
    }
  }

  // ---------------------------------------------------------------- what the collaborators answer

  /** A capture raises, or ends with the object it preserved, if it preserved one. */
  datatype Capture = CaptureRaises | Captured(object_id: Option<ObjectId>)

  /** An analysis or submission raises, or ends with a job and whether it was without complaint. */
  datatype Answer = Raises | Answers(job: JobId, clean: bool)

  datatype Services = Services(analysis: nat -> Answer, targets: Option<nat>, malware: nat -> Answer,
                               identity: bool, product: nat -> bool, report: bool)
  {
    /** No downstream service and no report raises. */
    ghost predicate Quiet() {
      && (forall i :: analysis(i).Answers?) && targets.Some? && (forall i :: malware(i).Answers?)
      && identity && report
    }
  }

  datatype Hardware = Hardware(space: bool, capture: nat -> Capture, verify: ObjectId -> bool)

  /** The first of `n` captures that raises. */
  function FirstRaise(capture: nat -> Capture, n: nat): (k: nat)
    ensures k <= n && (k < n ==> capture(k).CaptureRaises?)
    ensures forall i :: 0 <= i < k ==> capture(i).Captured?
  {
    if n == 0 then 0
    else if FirstRaise(capture, n - 1) < n - 1 then FirstRaise(capture, n - 1)
    else if capture(n - 1).CaptureRaises? then n - 1 else n
  }

  /** The distinct objects that the first `n` captures preserved, in order. */
  function Kept(capture: nat -> Capture, n: nat): seq<ObjectId> {
    if n == 0 then []
    else
      var before := Kept(capture, n - 1);
      match capture(n - 1)
      case CaptureRaises => before
      case Captured(object_id) =>
        if object_id.Some? && object_id.value !in before then before + [object_id.value] else before
  }

  /** Every object that a capture preserved passes its fixity check. */
  predicate AllVerify(hw: Hardware, p: Profile) {
    forall i :: 0 <= i < (if p == Conservative then 2 else 1) && hw.capture(i).Captured? && hw.capture(i).object_id.Some? ==>
      hw.verify(hw.capture(i).object_id.value)
  }

  /** Where `execute` must end when nothing after the captures raises. */
  function CaptureEnd(p: Profile, hw: Hardware): Option<WorkflowState> {
    if !hw.space then Some(FAILED)
    else
      var k := FirstRaise(hw.capture, p.Repeats());
      if k < p.Repeats() then Some(if Kept(hw.capture, k) != [] then PARTIAL else FAILED)
      else if p.RequiresMatch() && 1 < |Kept(hw.capture, p.Repeats())| then Some(NEEDS_OPERATOR)
      else None
  }

  /** The jobs that the first `n` answers end with. */
  function Jobs(answer: nat -> Answer, n: nat): seq<JobId> {
    if n == 0 then [] else Jobs(answer, n - 1) + if answer(n - 1).Answers? then [answer(n - 1).job] else []
  }

  /** One of the first `n` answers is a complaint. */
  predicate Complains(answer: nat -> Answer, n: nat) {
    exists i :: 0 <= i < n && answer(i).Answers? && !answer(i).clean
  }

  function CountBuilt(product: nat -> bool, n: nat): (k: nat)
    ensures k <= n && (k == n <==> forall i :: 0 <= i < n ==> product(i))
  { if n == 0 then 0 else CountBuilt(product, n - 1) + if product(n - 1) then 1 else 0 }

  predicate ScanIsDue(run: Run) { run.profile.ScansMalware() && run.malwareJobs == [] }

  /** Where planning leads: to the captures, or to an operator when the plan cannot be carried out safely. */
  function Planned(executable: bool): WorkflowState { if executable then READY_TO_CAPTURE else NEEDS_OPERATOR }

  /** Whether the stages after PRESERVED leave a warning: an earlier one, a complaint of an analysis or
      of a provider that is still to be asked, or a product that cannot be built. */
  predicate WarnsFrom(run: Run, services: Services) {
    || run.warned
    || (run.analysisJobs == [] && Complains(services.analysis, |run.objects|))
    || (ScanIsDue(run) && services.targets.Some? && Complains(services.malware, services.targets.value))
    || (run.built == 0 && CountBuilt(services.product, run.profile.Products()) < run.profile.Products())
  }

  /** The first state that `_downstream` asks for. */
  function FirstStage(run: Run): WorkflowState { if run.analysisJobs == [] then ANALYZING else MALWARE_ANALYSIS }

  /** The loops over preserved objects and over provider targets: the jobs of all answers, unless one raises. */
  method AskAll(answer: nat -> Answer, n: nat) returns (raised: bool, jobs: seq<JobId>, complaint: bool)
    ensures raised <==> exists i :: 0 <= i < n && answer(i).Raises?
    ensures !raised ==> jobs == Jobs(answer, n) && complaint == Complains(answer, n)
  {
    jobs, complaint := [], false;
    for i := 0 to n
      invariant forall k :: 0 <= k < i ==> answer(k).Answers?
      invariant jobs == Jobs(answer, i) && complaint == Complains(answer, i)
    {
      var a := answer(i);
      if a.Raises? {
        return true, jobs, complaint;
      }
      jobs, complaint := jobs + [a.job], complaint || !a.clean;
    }
    return false, jobs, complaint;
  }

  // ---------------------------------------------------------------- one run

  class Preservation {
    var run: Run
    var events: seq<Event>

    /** `create`. */
    constructor (profile: Profile)
      ensures Valid() && run.state == CREATED && run.profile == profile && |events| == 1
    {
      run := Run(CREATED, profile, false, false, 0, [], [], [], false, 0, false, 0, 0, 1);
      events := [Event(1, Created)];
    }

    /** The log is legal and replays to the stored state, and the record's own marks agree with it. */
    ghost predicate Valid()
      reads this
    {
      && events != [] && Legal(events) && Replay(events) == run.state
      && run.eventCount == |events|
      && (run.completed <==> Terminal(run.state))
      && (run.analysisJobs != [] ==> run.objects != [])
    }

    /** The log only grows, and a terminal state stays. */
    twostate predicate Onward()
      reads this
    {
      && old(events) <= events && run.profile == old(run.profile)
      && (Terminal(old(run.state)) ==> run.state == old(run.state))
    }

    /** `_event` on a loaded and perhaps changed record, followed by `_save`. */
    method LogAndSave(loaded: Run)
      requires Valid() && loaded.state == run.state && loaded.completed == run.completed
      requires loaded.analysisJobs != [] ==> loaded.objects != []
      modifies this
      ensures Valid() && run == loaded.(eventCount := |events|)
      ensures events == old(events) + [Event(old(|events|) + 1, Noted)]
    {
      hide Legal, Replay;
      LegalAppend(events, Noted);
      events := events + [Event(|events| + 1, Noted)];
      run := loaded.(eventCount := |events|);
    }

    /** `transition`. */
    method Transition(to: WorkflowState) returns (ending: Ending)
      requires Valid()
      modifies this
      ensures Valid() && ending in {Returned, Forbidden}
      ensures ending == Returned <==> to in Allowed(old(run.state))
      ensures ending == Forbidden ==> run == old(run) && events == old(events)
      ensures ending == Returned ==>
        run == old(run).(state := to, completed := Terminal(to), eventCount := |events|)
        && events == old(events) + [Event(old(|events|) + 1, Moved(old(run.state), to))]
    {
      hide Legal, Replay, Allowed, Terminal;
      if to !in Allowed(run.state) {
        return Forbidden;
      }
      TerminalIsFinal(run.state);
      LegalAppend(events, Moved(run.state, to));
      events := events + [Event(|events| + 1, Moved(run.state, to))];
      run := run.(state := to, completed := run.completed || Terminal(to), eventCount := |events|);
      return Returned;
    }

    /** `prepare`: detection, inspection and planning, as far as they concern the record. `candidate`
        says whether one was found, `registry` whether registration and planning raise, `executable`
        whether the plan can be carried out safely. */
    method Prepare(candidate: bool, registry: bool, executable: bool) returns (ending: Ending)
      requires Valid()
      modifies this
      ensures Valid() && Onward()
      ensures old(run.state) == CREATED && !candidate ==> ending == Returned && run.state == NEEDS_OPERATOR && run.warned
      ensures old(run.state) == CREATED && candidate ==>
        if registry then ending == Returned && run.candidate && run.state == (if executable then READY_TO_CAPTURE else NEEDS_OPERATOR)
        else ending == Raised && run.state == INSPECTING
      ensures old(run.state) != CREATED && !old(run.candidate) ==> ending == Refused && run == old(run) && events == old(events)
      ensures old(run.state) != CREATED && old(run.candidate) ==>
        if !registry then ending == Raised && run == old(run) && events == old(events)
        else if Planned(executable) in Allowed(old(run.state)) then ending == Returned && run.state == Planned(executable)
        else ending == Forbidden && run.state == old(run.state)
      ensures run.objects == old(run.objects) && run.analysisJobs == old(run.analysisJobs)
    {
      hide Legal, Replay;
      if run.state == CREATED {
        if !candidate {
          run := run.(warned := true);
          ending := Transition(NEEDS_OPERATOR);
          return;
        }
        Detect();
      } else if !run.candidate {
        return Refused;
      }
      if !registry {
        return Raised;
      }
      ending := Plan(executable);
    }

    method Detect()
      requires Valid() && run.state == CREATED
      modifies this
      ensures Valid() && Onward() && run == old(run).(state := INSPECTING, eventCount := |events|)
    {
      hide Legal, Replay;
      var ending := Transition(MEDIA_DETECTED);
      ending := Transition(INSPECTING);
    }

    method Plan(executable: bool) returns (ending: Ending)
      requires Valid()
      modifies this
      ensures Valid() && Onward() && ending in {Returned, Forbidden}
      ensures ending == Returned <==> Planned(executable) in Allowed(old(run.state))
      ensures run.state == if ending == Forbidden then old(run.state) else Planned(executable)
      ensures run.candidate && run.objects == old(run.objects) && run.analysisJobs == old(run.analysisJobs)
    {
      hide Legal, Replay;
      run := run.(candidate := true);
      if !executable {
        run := run.(reviews := run.reviews + 1);
        ending := Transition(NEEDS_OPERATOR);
        return;
      }
      LogAndSave(run);
      ending := Transition(READY_TO_CAPTURE);
    }

    lemma EventsAreCounted()
      requires Valid()
      ensures run.eventCount == |events|
    {
      hide Legal, Replay;
    }

    /** The capture loop of `execute`. */
    method CaptureAll(hw: Hardware) returns (raised: bool)
      requires Valid() && run.state == CAPTURING && run.objects == []
      modifies this
      ensures Valid() && Onward() && run.state == CAPTURING && run.profile == old(run.profile)
      ensures var n := run.profile.Repeats(); var k := FirstRaise(hw.capture, n);
        raised == (k < n)
        && run == old(run).(captures := old(run.captures) + k, objects := Kept(hw.capture, k), eventCount := |events|)
    {
      hide Legal, Replay, Valid, Kept, FirstRaise, Terminal, Allowed, Profile.Repeats;
      EventsAreCounted();
      var n := run.profile.Repeats();
      NoCapture(hw.capture);
      for i := 0 to n
        invariant Valid() && old(events) <= events
        invariant FirstRaise(hw.capture, i) == i
        invariant run == old(run).(captures := old(run.captures) + i, objects := Kept(hw.capture, i), eventCount := |events|)
      {
        var result := hw.capture(i);
        if result.CaptureRaises? {
          RaisesFirst(hw.capture, i, n);
          return true;
        }
        NextCapture(hw.capture, i);
        Keep(result.object_id);
      }
      return false;
    }

    /** Records one capture, and its object if it is a new one. */
    method Keep(id: Option<ObjectId>)
      requires Valid()
      modifies this
      ensures Valid() && old(events) <= events
      ensures run == old(run).(captures := old(run.captures) + 1, eventCount := |events|,
                               objects := if id.Some? && id.value !in old(run.objects) then old(run.objects) + [id.value]
                                          else old(run.objects))
    {
      hide Legal, Replay, Terminal;
      var loaded := run.(captures := run.captures + 1);
      if id.Some? && id.value !in loaded.objects {
        loaded := loaded.(objects := loaded.objects + [id.value]);
      }
      LogAndSave(loaded);
    }

    /** `execute`. */
    method Execute(hw: Hardware, services: Services) returns (ending: Ending)
      requires Valid()
      modifies this
      ensures Valid() && Onward()
      ensures Terminal(old(run.state)) || old(run.state) == NEEDS_OPERATOR ==>
        ending == Returned && run == old(run) && events == old(events)
      ensures old(run.objects) == [] && !Terminal(old(run.state)) && old(run.state) !in {NEEDS_OPERATOR, READY_TO_CAPTURE} ==>
        ending == Refused && run == old(run) && events == old(events)
      // from the ready state nothing forbidden is ever requested
      ensures old(run.objects) == [] && old(run.state) == READY_TO_CAPTURE ==> ending != Forbidden
      ensures old(run.objects) == [] && old(run.state) == READY_TO_CAPTURE && old(run.candidate) ==>
        match CaptureEnd(old(run.profile), hw)
        case Some(end) => ending == Returned && run.state == end
        case None =>
          && (!AllVerify(hw, old(run.profile)) ==> ending == Raised && run.analysisJobs == old(run.analysisJobs))
          && (services.Quiet() && AllVerify(hw, old(run.profile)) ==>
            ending == Returned
            && run.state == (if WarnsFrom(old(run).(objects := Kept(hw.capture, old(run.profile).Repeats())), services)
                             then COMPLETE_WITH_WARNINGS else COMPLETE))
    {
      hide Legal, Replay, AllVerify;
      if Terminal(run.state) || run.state == NEEDS_OPERATOR {
        return Returned;
      }
      if run.objects == [] {
        if run.state != READY_TO_CAPTURE {
          return Refused;
        }
        ending := CapturePhase(hw);
        if ending != Returned || run.state != PRESERVED {
          return;
        }
      }
      ending := Downstream(services);
    }

    /** The part of `execute` up to the preserved state. */
    method CapturePhase(hw: Hardware) returns (ending: Ending)
      requires Valid() && run.state == READY_TO_CAPTURE && run.objects == []
      modifies this
      ensures Valid() && Onward() && ending != Forbidden && run.analysisJobs == old(run.analysisJobs)
      ensures old(run.candidate) ==>
        match CaptureEnd(old(run.profile), hw)
        case Some(end) => ending == Returned && run.state == end && end != PRESERVED
        case None =>
          ending == (if AllVerify(hw, old(run.profile)) then Returned else Raised) && (ending == Returned ==> run.state == PRESERVED)
      ensures ending == Returned && run.state == PRESERVED && old(run.candidate) ==>
        && CaptureEnd(old(run.profile), hw) == None
        && run.objects == Kept(hw.capture, run.profile.Repeats())
        && run.warned == old(run.warned) && run.malwareJobs == old(run.malwareJobs) && run.built == old(run.built)
      ensures ending == Returned ==> run.state in {FAILED, PARTIAL, NEEDS_OPERATOR, PRESERVED}
    {
      assert !hw.space ==> CaptureEnd(run.profile, hw) == Some(FAILED);
      hide Legal, Replay, Allowed, Terminal, CaptureEnd, Kept, AllVerify, Profile.Repeats;
      CaptureMoves();
      if !hw.space {
        run := run.(failures := run.failures + 1);
        ending := Transition(FAILED);
        return;
      }
      ending := Transition(CAPTURING);
      if !run.candidate {
        return Refused;
      }
      ending := CaptureAndVerify(hw);
    }

    /** The captures and what is made of them, when there is space. */
    method CaptureAndVerify(hw: Hardware) returns (ending: Ending)
      requires Valid() && run.state == CAPTURING && run.objects == [] && hw.space
      modifies this
      ensures Valid() && Onward() && ending != Forbidden && run.analysisJobs == old(run.analysisJobs)
      ensures match CaptureEnd(run.profile, hw)
              case Some(end) => ending == Returned && run.state == end && end != PRESERVED
              case None => ending == if AllVerify(hw, run.profile) then Returned else Raised
      ensures CaptureEnd(run.profile, hw) == None && ending == Returned ==> run.state == PRESERVED
      ensures ending == Returned && run.state == PRESERVED ==>
        && CaptureEnd(run.profile, hw) == None
        && run.objects == Kept(hw.capture, run.profile.Repeats())
        && run.warned == old(run.warned) && run.malwareJobs == old(run.malwareJobs) && run.built == old(run.built)
      ensures ending == Returned ==> run.state in {FAILED, PARTIAL, NEEDS_OPERATOR, PRESERVED}
    {
      hide Legal, Replay, FirstRaise, Kept, AllVerify, Profile.Repeats, Allowed, Terminal;
      CaptureMoves();
      KeptVerifies(hw, run.profile);
      var raised := CaptureAll(hw);
      if raised {
        ending := CaptureFailed();
        return;
      }
      ending := VerifyAll(hw);
    }

    method CaptureFailed() returns (ending: Ending)
      requires Valid() && run.state == CAPTURING
      modifies this
      ensures Valid() && Onward() && ending == Returned && run.analysisJobs == old(run.analysisJobs)
      ensures run.state == if old(run.objects) != [] then PARTIAL else FAILED
    {
      hide Legal, Replay;
      run := run.(failures := run.failures + 1);
      ending := Transition(if run.objects != [] then PARTIAL else FAILED);
    }

    /** Agreement of repeated captures, then fixity of what was preserved. */
    method VerifyAll(hw: Hardware) returns (ending: Ending)
      requires Valid() && run.state == CAPTURING
      modifies this
      ensures Valid() && Onward() && ending in {Returned, Raised}
      ensures ending == Returned ==>
        run.state == if 1 < |old(run.objects)| && run.profile.RequiresMatch() then NEEDS_OPERATOR else PRESERVED
      ensures ending == Returned <==>
        (1 < |old(run.objects)| && run.profile.RequiresMatch()) || forall id :: id in old(run.objects) ==> hw.verify(id)
      ensures run == old(run).(state := run.state, reviews := run.reviews, eventCount := |events|)
      ensures run.reviews == old(run.reviews) + if 1 < |old(run.objects)| && run.profile.RequiresMatch() then 1 else 0
    {
      hide Legal, Replay, Allowed, Terminal, Profile.RequiresMatch;
      CaptureMoves();
      ending := Transition(VERIFYING);
      if 1 < |run.objects| && run.profile.RequiresMatch() {
        run := run.(reviews := run.reviews + 1);
        ending := Transition(NEEDS_OPERATOR);
        return;
      }
      for i := 0 to |run.objects|
        invariant forall k :: 0 <= k < i ==> hw.verify(run.objects[k])
      {
        if !hw.verify(run.objects[i]) {
          return Raised;
        }
      }
      ending := Transition(PRESERVED);
    }

    /** `_downstream`. Once analysis jobs are recorded it starts with the malware stage, which the
        table does not permit from PRESERVED. */
    method Downstream(services: Services) returns (ending: Ending)
      requires Valid()
      modifies this
      ensures Valid() && Onward()
      ensures ending == Forbidden <==> FirstStage(old(run)) !in Allowed(old(run.state))
      ensures ending == Forbidden ==> run == old(run) && events == old(events)
      ensures ending != Forbidden && services.Quiet() ==>
        ending == Returned && run.state == (if WarnsFrom(old(run), services) then COMPLETE_WITH_WARNINGS else COMPLETE)
    {
      hide Legal, Replay, Complains, CountBuilt;
      var warned := false;
      if run.analysisJobs == [] {
        var analysed, w := AnalyzeAll(services);
        if analysed != Returned {
          return analysed;
        }
        warned := w;
      }
      ending := Transition(MALWARE_ANALYSIS);
      if ending == Forbidden {
        return;
      }
      ending := ScanAndFinish(services, warned);
    }

    /** The stages from the malware stage on; `warned` says whether analysis complained. */
    method ScanAndFinish(services: Services, warned: bool) returns (ending: Ending)
      requires Valid() && run.state == MALWARE_ANALYSIS
      modifies this
      ensures Valid() && Onward() && ending in {Returned, Raised}
      ensures services.Quiet() ==>
        ending == Returned
        && run.state == (if || warned || old(run.warned)
                            || (ScanIsDue(old(run)) && services.targets.Some? && Complains(services.malware, services.targets.value))
                            || (old(run.built) == 0 && CountBuilt(services.product, run.profile.Products()) < run.profile.Products())
                         then COMPLETE_WITH_WARNINGS else COMPLETE)
    {
      hide Legal, Replay, Terminal, Allowed, Complains, CountBuilt;
      var scanned := Scan(services);
      if scanned == None {
        return Raised;
      }
      ending := Finish(services, warned || scanned.value);
    }

    /** The analysis stage; its jobs are stored only when no analysis raises. */
    method AnalyzeAll(services: Services) returns (ending: Ending, warned: bool)
      requires Valid() && run.analysisJobs == []
      modifies this
      ensures Valid() && Onward() && ending in {Returned, Forbidden, Raised}
      ensures ending == Forbidden <==> ANALYZING !in Allowed(old(run.state))
      ensures ending == Forbidden ==> run == old(run) && events == old(events)
      ensures ending == Returned ==>
        && run == old(run).(state := ANALYZING, analysisJobs := Jobs(services.analysis, |old(run.objects)|), eventCount := |events|)
        && (warned <==> Complains(services.analysis, |old(run.objects)|))
      ensures ending == Raised ==> run.analysisJobs == []
      ensures ending == Raised <==>
        ANALYZING in Allowed(old(run.state)) && exists i :: 0 <= i < |old(run.objects)| && services.analysis(i).Raises?
    {
      assert !Terminal(ANALYZING);
      hide Legal, Replay, Allowed, Terminal, Complains;
      TerminalIsFinal(run.state);
      warned := false;
      ending := Transition(ANALYZING);
      if ending == Forbidden {
        return;
      }
      var raised, jobs, complaint := AskAll(services.analysis, |run.objects|);
      if raised {
        return Raised, complaint;
      }
      LogAndSave(run.(analysisJobs := jobs));
      return Returned, complaint;
    }

    /** The malware stage: requests for the preserved objects and what analysis found in them. None
        means that a service raised; otherwise the result says whether there was something to warn of. */
    method Scan(services: Services) returns (warned: Option<bool>)
      requires Valid() && run.state == MALWARE_ANALYSIS
      modifies this
      ensures Valid() && Onward() && run.state == MALWARE_ANALYSIS
      ensures warned.Some? ==>
        if ScanIsDue(old(run)) then
          && services.targets.Some?
          && run == old(run).(malwareJobs := Jobs(services.malware, services.targets.value), eventCount := |events|)
          && warned.value == Complains(services.malware, services.targets.value)
        else run == old(run).(eventCount := |events|) && !warned.value
      ensures warned.None? ==> run == old(run) && events == old(events)
      ensures warned.None? <==>
        old(run.profile) != Quick && old(run.malwareJobs) == []
        && (services.targets == None || exists i :: 0 <= i < services.targets.value && services.malware(i).Raises?)
    {
      hide Legal, Replay;
      var jobs, complaint := run.malwareJobs, false;
      if run.profile.ScansMalware() && run.malwareJobs == [] {
        if services.targets == None {
          return None;
        }
        var raised;
        raised, jobs, complaint := AskAll(services.malware, services.targets.value);
        if raised {
          return None;
        }
      }
      LogAndSave(run.(malwareJobs := jobs));
      return Some(complaint);
    }

    method Identify(services: Services) returns (ending: Ending)
      requires Valid() && run.state == MALWARE_ANALYSIS
      modifies this
      ensures Valid() && Onward() && ending in {Returned, Raised}
      ensures run == old(run).(state := IDENTIFYING, identified := old(run.identified) || services.identity, eventCount := |events|)
      ensures ending == Returned <==> old(run.identified) || services.identity
    {
      hide Legal, Replay;
      ending := Transition(IDENTIFYING);
      if !run.identified {
        if !services.identity {
          return Raised;
        }
        LogAndSave(run.(identified := true));
      }
    }

    method Build(services: Services, warnings: bool)
      requires Valid() && run.state == IDENTIFYING
      modifies this
      ensures Valid() && Onward()
      ensures run == old(run).(state := BUILDING_PRODUCTS, built := run.built, warned := run.warned, eventCount := |events|)
      ensures var due, all := old(run.built) == 0, run.profile.Products();
        && run.built == (if due then CountBuilt(services.product, all) else old(run.built))
        && (run.warned <==> old(run.warned) || warnings || (due && CountBuilt(services.product, all) < all))
    {
      hide Legal, Replay;
      assert !Terminal(IDENTIFYING) && BUILDING_PRODUCTS in Allowed(IDENTIFYING);
      hide Terminal, Allowed;
      var _ := Transition(BUILDING_PRODUCTS);
      var built, warned := run.built, warnings;
      if built == 0 {
        var failed;
        built, failed := BuildAll(services, run.profile.Products());
        warned := warned || failed;
      }
      LogAndSave(run.(built := built, warned := run.warned || warned));
    }

    /** The loop over the products of a profile. */
    method BuildAll(services: Services, all: nat) returns (built: nat, failed: bool)
      ensures built == CountBuilt(services.product, all) && (failed <==> built < all)
    {
      built, failed := 0, false;
      for i := 0 to all
        invariant built == CountBuilt(services.product, i) && built <= i && (failed <==> built < i)
      {
        if services.product(i) {
          built := built + 1;
        } else {
          failed := true;
        }
      }
    }

    /** Identity, products and the final state. */
    method Finish(services: Services, warnings: bool) returns (ending: Ending)
      requires Valid() && run.state == MALWARE_ANALYSIS
      modifies this
      ensures Valid() && Onward() && ending in {Returned, Raised}
      ensures services.identity && services.report ==>
        ending == Returned
        && run.state == (if old(run.warned) || warnings
                            || (old(run.built) == 0 && CountBuilt(services.product, run.profile.Products()) < run.profile.Products())
                         then COMPLETE_WITH_WARNINGS else COMPLETE)
      ensures ending == Returned <==> (old(run.identified) || services.identity) && services.report
      ensures run.objects == old(run.objects) && run.analysisJobs == old(run.analysisJobs)
    {
      hide Legal, Replay;
      ending := Identify(services);
      if ending == Raised {
        return;
      }
      Build(services, warnings);
      ending := Transition(if run.warned then COMPLETE_WITH_WARNINGS else COMPLETE);
      if !services.report {
        return Raised;
      }
    }

    /** `resume`. A run that holds objects continues as if they had just been preserved; that completes
        exactly when no analysis job has been recorded yet. */
    method Resume(hw: Hardware, services: Services) returns (ending: Ending)
      requires Valid()
      modifies this
      ensures Valid() && Onward()
      ensures Terminal(old(run.state)) ==> ending == Returned && run == old(run) && events == old(events)
      ensures !Terminal(old(run.state)) && old(run.objects) != [] ==>
        (ending == Forbidden <==> old(run.analysisJobs) != [])
      ensures !Terminal(old(run.state)) && old(run.analysisJobs) != [] ==>
        ending == Forbidden && run.state == PRESERVED
      ensures !Terminal(old(run.state)) && old(run.objects) != [] && services.Quiet() ==>
        if old(run.analysisJobs) == []
        then ending == Returned
             && run.state == (if WarnsFrom(old(run), services) then COMPLETE_WITH_WARNINGS else COMPLETE)
        else ending == Forbidden && run.state == PRESERVED
    {
      hide Legal, Replay;
      if Terminal(run.state) {
        return Returned;
      }
      if run.objects == [] {
        ending := Execute(hw, services);
        return;
      }
      if run.state != PRESERVED {
        LegalAppend(events, Recovered);
        events := events + [Event(|events| + 1, Recovered)];
        run := run.(state := PRESERVED, eventCount := |events|);
      }
      ending := Downstream(services);
    }

    /** `cancel`: always possible before a terminal state, and keeps what was preserved. */
    method Cancel() returns (ending: Ending)
      requires Valid()
      modifies this
      ensures Valid() && Onward() && ending == Returned
      ensures run.state == if Terminal(old(run.state)) then old(run.state) else CANCELLED
      ensures run.objects == old(run.objects)
    {
      if Terminal(run.state) {
        return Returned;
      }
      ending := Transition(CANCELLED);
    }
  }

  /** What `_downstream` warns of, by profile: a quick run asks no malware provider, and the profiles build two, four and
      six products. */
  lemma WarnsIff(run: Run, services: Services)
    ensures ScanIsDue(run) <==> run.profile != Quick && run.malwareJobs == []
    ensures WarnsFrom(run, services) <==>
      || run.warned
      || (run.analysisJobs == [] && exists i :: 0 <= i < |run.objects| && services.analysis(i).Answers? && !services.analysis(i).clean)
      || (run.profile != Quick && run.malwareJobs == [] && services.targets.Some?
          && exists i :: 0 <= i < services.targets.value && services.malware(i).Answers? && !services.malware(i).clean)
      || (run.built == 0 && exists i :: 0 <= i < (match run.profile case Quick => 2 case Standard => 4 case Conservative => 6)
                                        && !services.product(i))
  {}

  /** Where the captures of a run end, by profile: a conservative run makes two, the others one. */
  lemma CaptureEndIff(p: Profile, hw: Hardware)
    ensures var first, second := hw.capture(0), hw.capture(1);
      CaptureEnd(p, hw)
      == if !hw.space || first.CaptureRaises? then Some(FAILED)
         else if p != Conservative then None
         else if second.CaptureRaises? then Some(if first.object_id.Some? then PARTIAL else FAILED)
         else if first.object_id.Some? && second.object_id.Some? && first.object_id != second.object_id then Some(NEEDS_OPERATOR)
         else None
  {
    NoCapture(hw.capture);
    assert Kept(hw.capture, 1) == if hw.capture(0).Captured? && hw.capture(0).object_id.Some? then [hw.capture(0).object_id.value] else [];
    assert FirstRaise(hw.capture, 1) == if hw.capture(0).CaptureRaises? then 0 else 1;
    assert FirstRaise(hw.capture, 2)
           == if hw.capture(0).CaptureRaises? then 0 else if hw.capture(1).CaptureRaises? then 1 else 2;
  }

  /** The jobs that are recorded are those of all answers, in order. */
  lemma {:induction false} JobsAre(answer: nat -> Answer, n: nat)
    requires forall i :: 0 <= i < n ==> answer(i).Answers?
    ensures |Jobs(answer, n)| == n && forall i :: 0 <= i < n ==> Jobs(answer, n)[i] == answer(i).job
  {
    if 0 < n {
      JobsAre(answer, n - 1);
    }
  }

  /** What is checked is what was kept. */
  lemma KeptVerifies(hw: Hardware, p: Profile)
    ensures AllVerify(hw, p) <==> forall id :: id in Kept(hw.capture, p.Repeats()) ==> hw.verify(id)
  {
    hide Kept;
    KeptHas(hw.capture, p.Repeats());
    if forall id :: id in Kept(hw.capture, p.Repeats()) ==> hw.verify(id) {
      forall i | 0 <= i < p.Repeats() && hw.capture(i).Captured? && hw.capture(i).object_id.Some?
        ensures hw.verify(hw.capture(i).object_id.value)
      {
        assert hw.capture(i) == Captured(Some(hw.capture(i).object_id.value));
      }
    }
  }

  /** The objects kept are those that some capture preserved, each once. */
  lemma {:induction false} KeptHas(capture: nat -> Capture, n: nat)
    ensures forall id :: id in Kept(capture, n) <==> exists i :: 0 <= i < n && capture(i) == Captured(Some(id))
    ensures forall i, j :: 0 <= i < j < |Kept(capture, n)| ==> Kept(capture, n)[i] != Kept(capture, n)[j]
  {
    if 0 < n {
      KeptHas(capture, n - 1);
      var before := Kept(capture, n - 1);
      forall id
        ensures id in Kept(capture, n) <==> exists i :: 0 <= i < n && capture(i) == Captured(Some(id))
      {
        assert id in Kept(capture, n) <==> id in before || capture(n - 1) == Captured(Some(id));
      }
    }
  }

  lemma NoCapture(capture: nat -> Capture)
    ensures FirstRaise(capture, 0) == 0 && Kept(capture, 0) == []
  {}

  lemma NextCapture(capture: nat -> Capture, i: nat)
    requires FirstRaise(capture, i) == i && capture(i).Captured?
    ensures FirstRaise(capture, i + 1) == i + 1
    ensures var id := capture(i).object_id;
      Kept(capture, i + 1)
      == if id.Some? && id.value !in Kept(capture, i) then Kept(capture, i) + [id.value] else Kept(capture, i)
  {}

  lemma {:induction false} RaisesFirst(capture: nat -> Capture, k: nat, n: nat)
    requires FirstRaise(capture, k) == k && k < n && capture(k).CaptureRaises?
    ensures FirstRaise(capture, n) == k
  {
    if k + 1 < n {
      RaisesFirst(capture, k, n - 1);
    }
  }

  /** Capture `k` raises and none before it does. */
  predicate RaisesAt(capture: nat -> Capture, k: nat) {
    capture(k).CaptureRaises? && forall i :: 0 <= i < k ==> capture(i).Captured?
  }

  /** A run ends PARTIAL exactly when a capture raised after an object was kept. */
  lemma PartialIffKeptThenRaised(p: Profile, hw: Hardware)
    ensures CaptureEnd(p, hw) == Some(PARTIAL) <==>
      hw.space && exists k :: 0 <= k < p.Repeats() && RaisesAt(hw.capture, k) && Kept(hw.capture, k) != []
  {
    var n := p.Repeats();
    var first := FirstRaise(hw.capture, n);
    if exists k :: 0 <= k < n && RaisesAt(hw.capture, k) && Kept(hw.capture, k) != [] {
      var k :| 0 <= k < n && RaisesAt(hw.capture, k) && Kept(hw.capture, k) != [];
      assert first == k;
    }
  }
}

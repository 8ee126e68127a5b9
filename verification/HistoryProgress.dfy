/** The history loop can always catch up (server/history_index.go): from every state of
    every run, steps of the watcher and the loop alone lead to the index of a rebuild. */
module HistoryProgress {
  import opened HistoryIndex
  import opened HistoryLoop
  import opened Optional

  /** How much the refresh under way has still to do. */
  function WorkLeft(activity: Activity): nat {
    match activity
    case Idle => 0
    case Batch(todo) => 2 * |todo| + 1
    case BatchReading(_, _, todo) => 2 * |todo| + 2
    case Walking(todo, _) => 2 * |todo| + 1
    case WalkReading(_, _, todo, _) => 2 * |todo| + 2
  }

  /** How far the loop is from being drained. */
  function Distance(s: Sys): nat {
    7 * |s.events| + (if s.inHand.Some? then 6 else 0) + 5 * |s.requests| + 4 * |s.pending| + WorkLeft(s.activity)
  }

  /** The watcher or the loop moves, not a file. */
  predicate Moves(step: Step) {
    !step.FileChanges?
  }

  lemma WorkHelps(place: Place, s: Sys) returns (step: Step)
    requires s.activity != Idle
    ensures Moves(step) && Enabled(s, step) && Distance(Apply(place, s, step)) < Distance(s)
    ensures Apply(place, s, step).silent == s.silent && Apply(place, s, step).files == s.files
  {
    if s.activity.BatchReading? || s.activity.WalkReading? {
      step := Refreshes(ReadFile);
    } else if s.activity.todo == {} {
      step := Refreshes(if s.activity.Batch? then EndBatch else EndWalk);
    } else {
      var id :| id in s.activity.todo;
      step := Refreshes(StatFile(id));
      StatHelps(place, s, id);
    }
  }

  lemma StatHelps(place: Place, s: Sys, id: JobId)
    requires (s.activity.Batch? || s.activity.Walking?) && id in s.activity.todo
    ensures var s' := ApplyWork(place, s, StatFile(id));
            Distance(s') < Distance(s) && s'.silent == s.silent && s'.files == s.files
  {
    if s.activity.Batch? { BatchStatHelps(s, id); } else { WalkStatHelps(s, id); }
  }

  lemma BatchStatHelps(s: Sys, id: JobId)
    requires s.activity.Batch? && id in s.activity.todo
    ensures var s' := StatInBatch(s, id); Distance(s') < Distance(s) && s'.silent == s.silent && s'.files == s.files
  {
    assert |s.activity.todo - {id}| == |s.activity.todo| - 1;
  }

  lemma WalkStatHelps(s: Sys, id: JobId)
    requires s.activity.Walking? && id in s.activity.todo
    ensures var s' := StatInWalk(s, id); Distance(s') < Distance(s) && s'.silent == s.silent && s'.files == s.files
  {
    assert |s.activity.todo - {id}| == |s.activity.todo| - 1;
  }

  lemma ReceiveHelps(place: Place, s: Sys)
    requires s.activity == Idle && s.requests != []
    ensures var s' := Apply(place, s, Selects(Receive(false)));
            Distance(s') < Distance(s) && s'.silent == s.silent && s'.files == s.files
  {
    if s.requests[0].OneFile? { AddedOne(s.pending, s.requests[0].id); }
  }

  lemma AddedOne(ids: set<JobId>, id: JobId)
    ensures |ids + {id}| <= |ids| + 1
  {
    if id in ids { assert ids + {id} == ids; }
  }

  /** Unless the loop is drained, something brings it closer. */
  lemma SomethingHelps(place: Place, s: Sys) returns (step: Step)
    requires Inv(place, s) && !Drained(s)
    ensures Moves(step) && Enabled(s, step) && Distance(Apply(place, s, step)) < Distance(s)
    ensures Apply(place, s, step).silent == s.silent && Apply(place, s, step).files == s.files
  {
    if s.activity != Idle {
      step := WorkHelps(place, s);
    } else if s.requests != [] {
      step := Selects(Receive(false));
      ReceiveHelps(place, s);
    } else if s.pending != {} {
      step := Selects(DebounceFires);
    } else if s.inHand.Some? {
      step := Watches(SendRequest);
    } else {
      step := Watches(TakeEvent);
    }
  }

  /** These steps, all by the watcher and the loop, lead from one state to the other. */
  ghost predicate Leads(place: Place, s: Sys, steps: seq<Step>, end: Sys)
    decreases |steps|
  {
    if steps == [] then end == s
    else Moves(steps[0]) && Enabled(s, steps[0]) && Leads(place, Apply(place, s, steps[0]), steps[1..], end)
  }

  lemma OneMore(place: Place, s: Sys, step: Step, rest: seq<Step>, end: Sys)
    requires Moves(step) && Enabled(s, step) && Leads(place, Apply(place, s, step), rest, end)
    ensures Leads(place, s, [step] + rest, end)
  {
    assert ([step] + rest)[1..] == rest;
  }

  lemma {:induction false} LeadsOn(place: Place, s: Sys, steps: seq<Step>, middle: Sys, more: seq<Step>, end: Sys)
    requires Leads(place, s, steps, middle) && Leads(place, middle, more, end)
    ensures Leads(place, s, steps + more, end)
    decreases |steps|
  {
    if steps == [] {
      assert steps + more == more;
    } else {
      LeadsOn(place, Apply(place, s, steps[0]), steps[1..], middle, more, end);
      assert (steps + more)[1..] == steps[1..] + more;
    }
  }

  lemma {:induction false} CanDrain(place: Place, s: Sys) returns (steps: seq<Step>, end: Sys)
    requires Inv(place, s)
    ensures Leads(place, s, steps, end) && Drained(end) && Inv(place, end)
    ensures end.silent == s.silent && end.files == s.files
    decreases Distance(s)
  {
    if Drained(s) {
      steps, end := [], s;
    } else {
      var step := SomethingHelps(place, s);
      InvKept(place, s, step);
      var rest;
      rest, end := CanDrain(place, Apply(place, s, step));
      OneMore(place, s, step, rest, end);
      steps := [step] + rest;
    }
  }

  /** The loop can always catch up: in every run, from where it is, the watcher and the
      loop can go on, without any file changing, until nothing is queued and the index
      says of every job what its file says, whatever was missed before. */
  lemma CanCatchUp(place: Place, states: seq<Sys>, steps: seq<Step>, n: nat) returns (more: seq<Step>, end: Sys)
    requires IsRun(place, states, steps) && n < |states|
    ensures Leads(place, states[n], more, end) && Drained(end) && end.files == states[n].files
    ensures forall id: JobId :: Lookup(end.rows, id) == Wanted(place, states[n].files, id)
  {
    RunInv(place, states, steps, n);
    var middle;
    more, middle := CanDrain(place, states[n]);
    var periodic := Selects(PeriodicFires);
    InvKept(place, middle, periodic);
    var rest;
    rest, end := CanDrain(place, Apply(place, middle, periodic));
    OneMore(place, middle, periodic, rest, end);
    LeadsOn(place, states[n], more, middle, [periodic] + rest, end);
    more := more + ([periodic] + rest);
    DrainedAgrees(place, end);
  }

  lemma DrainedAgrees(place: Place, s: Sys)
    requires Inv(place, s) && Drained(s) && s.silent == {}
    ensures forall id: JobId :: Lookup(s.rows, id) == Wanted(place, s.files, id)
  {
    forall id: JobId ensures Lookup(s.rows, id) == Wanted(place, s.files, id) {
      assert !Unhandled(s, id) && !Disagrees(place, s, id);
    }
  }
}

/** AsyncResolver: a worker thread, a posted task and a deferred self-deletion. */
module AsyncResolvers {

  datatype Result = Result(error: int, addresses: seq<string>)

  /** The posted task, between its check of the status and the completion it then runs. */
  datatype Phase = Idle | Completing(result: Result)

  datatype State = State(
    live: bool, recursion: bool, destroyCalled: bool, error: int, addresses: seq<string>,
    workers: nat, posted: seq<Result>, phase: Phase,
    starts: nat, completions: seq<Result>, dropped: nat, deletions: nat, misused: bool)

  /** What a SignalDone handler does: it may start more resolutions, and may destroy the resolver. */
  datatype Handler = Handler(restarts: nat, destroys: bool)

  const NEW := State(true, false, false, -1, [], 0, [], Idle, 0, [], 0, 0, false)

  // ---- The steps, each atomic ----

  /** The object is accessed: a misuse if it is deleted. */
  function Touched(s: State): State {
    s.(misused := s.misused || s.deletions > 0)
  }

  function SelfDestructed(s: State): State {
    var t := Touched(s);
    if !t.recursion then t.(live := false, deletions := t.deletions + 1) else t.(recursion := false)
  }

  function Started(s: State): State {
    Touched(s).(workers := s.workers + 1, starts := s.starts + 1)
  }

  function Destroyed(s: State): State {
    SelfDestructed(Touched(s).(destroyCalled := true))
  }

  /** A worker finishes: under the lock, its result is posted if the status is live. */
  function Posted(s: State, result: Result): State
    requires s.workers > 0
  {
    var t := s.(workers := s.workers - 1);
    if s.live then t.(posted := s.posted + [result]) else t.(dropped := s.dropped + 1)
  }

  /** The task looks at the status, again under the lock. */
  function Checked(s: State): State
    requires s.posted != [] && s.phase.Idle?
  {
    var t := s.(posted := s.posted[1..]);
    if s.live then t.(phase := Completing(s.posted[0])) else t.(dropped := s.dropped + 1)
  }

  function Handled(s: State, h: Handler): State {
    var t := s.(workers := s.workers + h.restarts, starts := s.starts + h.restarts);
    if h.destroys then Destroyed(t) else t
  }

  function Completed(s: State, h: Handler): State
    requires s.phase.Completing?
  {
    var r := s.phase.result;
    var t := Touched(s).(addresses := r.addresses, error := r.error, recursion := true,
                         completions := s.completions + [r]);
    SelfDestructed(Handled(t, h)).(phase := Idle)
  }

  /** The object: its methods, and the two threads' use of it. */
  class AsyncResolver {
    var live: bool
    var recursionCheck: bool
    var destroyCalled: bool
    var error: int
    var addresses: seq<string>
    var posted: seq<Result>
    var phase: Phase
    ghost var workers: nat
    ghost var starts: nat
    ghost var completions: seq<Result>
    ghost var dropped: nat
    ghost var deletions: nat
    ghost var misused: bool

    ghost function View(): State
      reads this
    {
      State(live, recursionCheck, destroyCalled, error, addresses, workers, posted, phase,
            starts, completions, dropped, deletions, misused)
    }

    constructor ()
      ensures View() == NEW
    {
      live, recursionCheck, destroyCalled, error, addresses := true, false, false, -1, [];
      posted, phase := [], Idle;
      workers, starts, completions, dropped, deletions, misused := 0, 0, [], 0, 0, false;
    }

    ghost method Touch()
      modifies this`misused
      ensures View() == Touched(old(View()))
    {
      misused := misused || deletions > 0;
    }

    method Start()
      modifies this
      ensures View() == Started(old(View()))
    {
      Touch();
      workers, starts := workers + 1, starts + 1;
    }

    method FinishWorker(result: Result)
      requires workers > 0
      modifies this
      ensures View() == Posted(old(View()), result)
    {
      workers := workers - 1;
      if live {
        posted := posted + [result];
      } else {
        dropped := dropped + 1;
      }
    }

    method CheckTask()
      requires posted != [] && phase.Idle?
      modifies this
      ensures View() == Checked(old(View()))
    {
      if live {
        phase := Completing(posted[0]);
      } else {
        dropped := dropped + 1;
      }
      posted := posted[1..];
    }

    method ResolveDone(h: Handler)
      requires phase.Completing?
      modifies this
      ensures View() == Completed(old(View()), h)
    {
      Touch();
      addresses, error := phase.result.addresses, phase.result.error;
      recursionCheck := true;
      SignalDone(h);
      MaybeSelfDestruct();
      phase := Idle;
    }

    method SignalDone(h: Handler)
      requires phase.Completing?
      modifies this
      ensures View() == Handled(old(View()).(completions := old(completions) + [old(phase).result]), h)
    {
      completions := completions + [phase.result];
      workers, starts := workers + h.restarts, starts + h.restarts;
      if h.destroys {
        Destroy();
      }
    }

    method Destroy()
      modifies this
      ensures View() == Destroyed(old(View()))
    {
      Touch();
      destroyCalled := true;
      MaybeSelfDestruct();
    }

    method MaybeSelfDestruct()
      modifies this
      ensures View() == SelfDestructed(old(View()))
    {
      Touch();
      if !recursionCheck {
        live := false;
        deletions := deletions + 1;
      } else {
        recursionCheck := false;
      }
    }
  }

  // ---- Runs ----

  datatype Step = Start | Finish(result: Result) | Check | Done(h: Handler) | Destroy

  /** What the code's assertions demand; when serial, also that Destroy does not overlap the task. */
  predicate Enabled(s: State, step: Step, serial: bool) {
    match step
    case Start => !s.destroyCalled
    case Finish(_) => s.workers > 0
    case Check => s.posted != [] && s.phase.Idle?
    case Done(h) => s.phase.Completing? && (h.restarts > 0 || h.destroys ==> !s.destroyCalled)
    case Destroy => !s.destroyCalled && (serial ==> s.phase.Idle?)
  }

  function Next(s: State, step: Step): State
    requires Enabled(s, step, false)
  {
    match step
    case Start => Started(s)
    case Finish(result) => Posted(s, result)
    case Check => Checked(s)
    case Done(h) => Completed(s, h)
    case Destroy => Destroyed(s)
  }

  /** Every step is enabled when its turn comes. */
  predicate Legal(s: State, steps: seq<Step>, serial: bool)
    decreases |steps|
  {
    steps == []
    || (Enabled(s, steps[0], false) && Enabled(s, steps[0], serial) && Legal(Next(s, steps[0]), steps[1..], serial))
  }

  function Run(s: State, steps: seq<Step>): State
    requires Legal(s, steps, false)
    decreases |steps|
  {
    if steps == [] then s else Run(Next(s, steps[0]), steps[1..])
  }

  predicate Safe(s: State) {
    && !s.misused && !s.recursion
    && s.deletions == (if s.destroyCalled then 1 else 0)
    && s.live == !s.destroyCalled
    && (s.phase.Completing? ==> s.live)
    && |s.completions| + s.dropped + (if s.phase.Completing? then 1 else 0) + |s.posted| + s.workers == s.starts
  }

  lemma SerialIsLegal(s: State, steps: seq<Step>)
    requires Legal(s, steps, true)
    ensures Legal(s, steps, false)
    decreases |steps|
  {
    if steps != [] { SerialIsLegal(Next(s, steps[0]), steps[1..]); }
  }

  lemma StepKeepsSafe(s: State, step: Step)
    requires Safe(s) && Enabled(s, step, true)
    ensures Enabled(s, step, false) && Safe(Next(s, step))
  {
  }

  /** Every serial schedule keeps the resolver safe: it is never used after its deletion, and is
      deleted exactly once, as soon as Destroy has been called. */
  lemma {:induction false} SerialRunIsSafe(s: State, steps: seq<Step>)
    requires Safe(s) && Legal(s, steps, true)
    ensures Legal(s, steps, false) && Safe(Run(s, steps))
    decreases |steps|
  {
    if steps != [] {
      StepKeepsSafe(s, steps[0]);
      SerialRunIsSafe(Next(s, steps[0]), steps[1..]);
    }
  }

  /** From creation on: completions never outnumber starts, and once everything has run down they
      account for every start that was not dropped. */
  lemma {:induction false} EachStartCompletesAtMostOnce(steps: seq<Step>)
    requires Legal(NEW, steps, true)
    ensures Legal(NEW, steps, false)
    ensures |Run(NEW, steps).completions| + Run(NEW, steps).dropped <= Run(NEW, steps).starts
    ensures var t := Run(NEW, steps);
            t.workers == 0 && t.posted == [] && t.phase.Idle? ==> |t.completions| + t.dropped == t.starts
    ensures Run(NEW, steps).deletions == if Run(NEW, steps).destroyCalled then 1 else 0
  {
    SerialRunIsSafe(NEW, steps);
  }

  /** Nothing completes after the deletion. */
  lemma {:induction false} DeletedStaysQuiet(s: State, steps: seq<Step>)
    requires Safe(s) && s.deletions == 1 && Legal(s, steps, true)
    ensures Legal(s, steps, false)
    ensures Run(s, steps).completions == s.completions && Run(s, steps).deletions == 1
    ensures Run(s, steps).starts == s.starts
    decreases |steps|
  {
    if steps != [] {
      StepKeepsSafe(s, steps[0]);
      DeletedStaysQuiet(Next(s, steps[0]), steps[1..]);
    }
  }

  /** Without a Destroy nothing is dropped. */
  lemma {:induction false} LiveLosesNothing(s: State, steps: seq<Step>)
    requires Safe(s) && Legal(s, steps, true)
    ensures Legal(s, steps, false)
    ensures !Run(s, steps).destroyCalled ==> !s.destroyCalled && Run(s, steps).dropped == s.dropped
    decreases |steps|
  {
    if steps != [] {
      StepKeepsSafe(s, steps[0]);
      LiveLosesNothing(Next(s, steps[0]), steps[1..]);
    }
  }

  // ---- What a completion leaves behind ----

  /** The object shows what it was created with until something completes, and then the last completion. */
  predicate ShowsLast(s: State) {
    if s.completions == [] then s.error == -1 && s.addresses == []
    else
      var last := s.completions[|s.completions| - 1];
      s.error == last.error && s.addresses == last.addresses
  }

  lemma StepShowsLast(s: State, step: Step)
    requires ShowsLast(s) && Enabled(s, step, false)
    ensures ShowsLast(Next(s, step))
  {
    if step.Done? {
      var t := Next(s, step);
      assert t.completions == s.completions + [s.phase.result];
    }
  }

  /** At every point of every schedule the assertions allow. */
  lemma {:induction false} LastCompletionShows(s: State, steps: seq<Step>)
    requires ShowsLast(s) && Legal(s, steps, false)
    ensures ShowsLast(Run(s, steps))
    decreases |steps|
  {
    if steps != [] {
      StepShowsLast(s, steps[0]);
      LastCompletionShows(Next(s, steps[0]), steps[1..]);
    }
  }

  /** The results that workers brought, in order. */
  function Brought(steps: seq<Step>): seq<Result>
    decreases |steps|
  {
    if steps == [] then [] else (if steps[0].Finish? then [steps[0].result] else []) + Brought(steps[1..])
  }

  /** Completed, being completed, and posted. */
  function Held(s: State): seq<Result> {
    s.completions + (if s.phase.Completing? then [s.phase.result] else []) + s.posted
  }

  /** Elements of b, in the same order, each taken at most once. */
  predicate Within(a: seq<Result>, b: seq<Result>)
    decreases |b|
  {
    if b == [] then a == []
    else
      var rest := b[..|b| - 1];
      Within(a, rest) || (a != [] && a[|a| - 1] == b[|b| - 1] && Within(a[..|a| - 1], rest))
  }

  lemma WithinMore(a: seq<Result>, b: seq<Result>, x: Result)
    requires Within(a, b)
    ensures Within(a, b + [x]) && Within(a + [x], b + [x])
  {
    assert (b + [x])[..|b|] == b && (a + [x])[..|a|] == a;
  }

  lemma {:induction false} WithinFewer(a: seq<Result>, b: seq<Result>, i: nat)
    requires Within(a, b) && i < |a|
    ensures Within(a[..i] + a[i + 1..], b)
    decreases |b|
  {
    var rest, less := b[..|b| - 1], a[..i] + a[i + 1..];
    if Within(a, rest) {
      WithinFewer(a, rest, i);
    } else if i == |a| - 1 {
      assert less == a[..i];
    } else {
      var front := a[..|a| - 1];
      WithinFewer(front, rest, i);
      assert less[..|less| - 1] == front[..i] + front[i + 1..];
    }
  }

  lemma FinishHolds(s: State, result: Result)
    requires s.workers > 0
    ensures Held(Posted(s, result)) == if s.live then Held(s) + [result] else Held(s)
  {
  }

  /** The task takes the oldest result, or drops it. */
  lemma CheckHolds(s: State)
    requires s.posted != [] && s.phase.Idle?
    ensures var n := |s.completions|;
            && n < |Held(s)|
            && Held(Checked(s)) == if s.live then Held(s) else Held(s)[..n] + Held(s)[n + 1..]
  {
    assert s.posted == [s.posted[0]] + s.posted[1..];
    if s.live {
      assert s.completions + [s.posted[0]] + s.posted[1..] == s.completions + ([s.posted[0]] + s.posted[1..]);
    }
  }

  lemma DoneHolds(s: State, h: Handler)
    requires s.phase.Completing?
    ensures Held(Completed(s, h)) == Held(s)
  {
    var t := Completed(s, h);
    assert t.completions == s.completions + [s.phase.result] && t.posted == s.posted && t.phase.Idle?;
  }

  /** One step keeps the results within those brought. */
  lemma StepHolds(s: State, before: seq<Result>, step: Step)
    requires Within(Held(s), before) && Enabled(s, step, false) && (s.live ==> Held(s) == before)
    ensures var more := if step.Finish? then before + [step.result] else before;
            Within(Held(Next(s, step)), more) && (Next(s, step).live ==> Held(Next(s, step)) == more)
  {
    match step
    case Finish(result) => FinishHolds(s, result); WithinMore(Held(s), before, result);
    case Check => CheckHolds(s); if !s.live { WithinFewer(Held(s), before, |s.completions|); }
    case Done(h) => DoneHolds(s, h); assert Completed(s, h).live ==> s.live;
    case _ => assert Held(Next(s, step)) == Held(s);
  }

  lemma BroughtFirst(before: seq<Result>, steps: seq<Step>)
    requires steps != []
    ensures before + Brought(steps)
            == (if steps[0].Finish? then before + [steps[0].result] else before) + Brought(steps[1..])
  {
  }

  lemma {:induction false} ResultsAsBrought(s: State, before: seq<Result>, steps: seq<Step>, all: seq<Result>)
    requires Within(Held(s), before) && Legal(s, steps, false) && (s.live ==> Held(s) == before)
    requires all == before + Brought(steps)
    ensures Within(Held(Run(s, steps)), all) && (Run(s, steps).live ==> Held(Run(s, steps)) == all)
    decreases |steps|
  {
    if steps == [] {
      assert all == before;
    } else {
      StepHolds(s, before, steps[0]);
      BroughtFirst(before, steps);
      var more := if steps[0].Finish? then before + [steps[0].result] else before;
      ResultsAsBrought(Next(s, steps[0]), more, steps[1..], all);
    }
  }

  /** In every schedule the assertions allow: the object shows its last completion; what is completed, being
      completed and posted are results that workers brought, in the order they brought them, none twice; and
      all of them, while the status is live. */
  lemma CompletionsAreResults(steps: seq<Step>)
    requires Legal(NEW, steps, false)
    ensures ShowsLast(Run(NEW, steps)) && Within(Held(Run(NEW, steps)), Brought(steps))
    ensures Run(NEW, steps).live ==> Held(Run(NEW, steps)) == Brought(steps)
  {
    LastCompletionShows(NEW, steps);
    NewHoldsNothing(Brought(steps));
    ResultsAsBrought(NEW, Held(NEW), steps, Brought(steps));
  }

  lemma NewHoldsNothing(all: seq<Result>)
    ensures Within(Held(NEW), Held(NEW)) && all == Held(NEW) + all
  {
    assert Held(NEW) == [];
  }

  // ---- Overlap ----

  /** Deleted between the check and the completion: the completion will run on a deleted object. */
  predicate Doomed(s: State) {
    s.misused || (s.phase.Completing? && s.deletions > 0)
  }

  lemma DoomedStep(s: State, step: Step)
    requires Doomed(s) && Enabled(s, step, false)
    ensures Doomed(Next(s, step))
  {
  }

  lemma {:induction false} DoomedRun(s: State, steps: seq<Step>)
    requires Doomed(s) && Legal(s, steps, false)
    ensures Doomed(Run(s, steps))
    decreases |steps|
  {
    if steps != [] {
      DoomedStep(s, steps[0]);
      DoomedRun(Next(s, steps[0]), steps[1..]);
    }
  }

  /** Of all schedules the assertions allow, and that let a checked task finish, the ones that use a
      deleted resolver are exactly those where Destroy overlaps the task. */
  lemma {:induction false} MisusedIffOverlapped(s: State, steps: seq<Step>)
    requires Safe(s) && Legal(s, steps, false) && Run(s, steps).phase.Idle?
    ensures Run(s, steps).misused <==> !Legal(s, steps, true)
    decreases |steps|
  {
    if Legal(s, steps, true) {
      SerialRunIsSafe(s, steps);
    } else if Enabled(s, steps[0], true) {
      StepKeepsSafe(s, steps[0]);
      MisusedIffOverlapped(Next(s, steps[0]), steps[1..]);
    } else {
      DoomedRun(Next(s, steps[0]), steps[1..]);
    }
  }

  /** The shortest such schedule. */
  lemma OverlapMisuses(r: Result)
    ensures var steps := [Start, Finish(r), Check, Destroy, Done(Handler(0, false))];
            Legal(NEW, steps, false) && Run(NEW, steps).misused
  {
    var s1 := Next(NEW, Start);
    var s2 := Next(s1, Finish(r));
    var s3 := Next(s2, Check);
    var s4 := Next(s3, Destroy);
    var s5 := Next(s4, Done(Handler(0, false)));
    var done := Done(Handler(0, false));
    assert Legal(s5, [], false) && Run(s5, []) == s5;
    assert [done][1..] == [] && Legal(s4, [done], false) && Run(s4, [done]) == s5;
    assert [Destroy, done][1..] == [done] && Legal(s3, [Destroy, done], false) && Run(s3, [Destroy, done]) == s5;
    assert [Check, Destroy, done][1..] == [Destroy, done] && Run(s2, [Check, Destroy, done]) == s5;
    assert [Finish(r), Check, Destroy, done][1..] == [Check, Destroy, done]
        && Run(s1, [Finish(r), Check, Destroy, done]) == s5;
    assert [Start, Finish(r), Check, Destroy, done][1..] == [Finish(r), Check, Destroy, done];
  }
}

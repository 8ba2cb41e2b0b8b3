/** The timer thread and the threads that post trackers (iwpmd/iwarp_pm_server.c:101-140,
    iwpmd/iwarp_pm_helper.c:88-96): one mutex, one condition variable, the `wake` flag and an
    emptiness test made without the lock. A signal wakes the timer only if it is waiting
    then; otherwise it is lost. No interleaving leaves the timer asleep on a tracker. */
module WakeUp {

  datatype Timer =
    | Start      // about to lock, at the top of the outer loop
    | Held       // holds the lock, about to clear `wake` and test the list
    | Waiting    // blocked in pthread_cond_wait
    | Woken      // woken, about to get the lock back
    | Loop       // about to lock, at the top of the inner loop
    | Ticking    // holds the lock, `wake` set, ageing the trackers
    | Asleep     // in sleep(1), then testing the list without the lock
    | Exited     // the wait failed and the thread returned

  datatype Poster =
    | Idle
    | Entered    // holds the lock
    | Added      // has linked its tracker in, about to look at `wake`
    | Leaving    // about to unlock

  datatype Owner = Free | ByTimer | ByPoster(i: nat)

  /** `n` trackers are listed. */
  datatype State = State(timer: Timer, posters: seq<Poster>, lock: Owner, wake: bool, n: nat)

  datatype Step =
    | PosterStep(i: nat)
    | TimerStep(left: nat)   // `left` trackers remain after a pass
    | Spurious
    | WaitFails

  /** What the thread does if it may run, else the state as it is. */
  function Next(s: State, step: Step): State {
    match step
    case PosterStep(i) => if i < |s.posters| then PosterNext(s, i) else s
    case TimerStep(left) => TimerNext(s, left)
    case Spurious => if s.timer == Waiting then s.(timer := Woken) else s
    case WaitFails => if s.timer == Waiting then s.(timer := Exited) else s
  }

  /** `add_iwpm_map_request`. */
  function PosterNext(s: State, i: nat): State
    requires i < |s.posters|
  {
    match s.posters[i]
    case Idle =>
      if s.lock == Free then s.(posters := s.posters[i := Entered], lock := ByPoster(i)) else s
    case Entered =>
      s.(posters := s.posters[i := Added], n := s.n + 1)
    case Added =>
      s.(posters := s.posters[i := Leaving],
         timer := if !s.wake && s.timer == Waiting then Woken else s.timer)
    case Leaving =>
      s.(posters := s.posters[i := Idle], lock := Free)
  }

  /** `iwpm_mapping_reqs_handler`. */
  function TimerNext(s: State, left: nat): State {
    match s.timer
    case Start => if s.lock == Free then s.(timer := Held, lock := ByTimer) else s
    case Held => s.(timer := if s.n == 0 then Waiting else Loop, lock := Free, wake := false)
    case Waiting => s
    case Woken => if s.lock == Free then s.(timer := Loop) else s
    case Loop => if s.lock == Free then s.(timer := Ticking, lock := ByTimer, wake := true) else s
    case Ticking => s.(timer := Asleep, lock := Free, n := if left < s.n then left else s.n)
    case Asleep => s.(timer := if s.n == 0 then Start else Loop)
    case Exited => s
  }

  ghost predicate Init(s: State) {
    && s.timer == Start && s.lock == Free && !s.wake && s.n == 0
    && forall i :: 0 <= i < |s.posters| ==> s.posters[i] == Idle
  }

  ghost predicate Inv(s: State) {
    && (s.lock == ByTimer <==> s.timer == Held || s.timer == Ticking)
    && (forall i :: 0 <= i < |s.posters| ==> (s.lock == ByPoster(i) <==> s.posters[i] != Idle))
    && (s.lock.ByPoster? ==> s.lock.i < |s.posters|)
    && (s.timer == Waiting ==> !s.wake)
    && (s.timer == Waiting && s.n > 0 ==> SignalPending(s))
  }

  /** Some poster has linked its tracker in and is about to signal. */
  ghost predicate SignalPending(s: State) {
    s.lock.ByPoster? && s.lock.i < |s.posters| && s.posters[s.lock.i] == Added && !s.wake
  }

  lemma NextKeepsInv(s: State, step: Step)
    requires Inv(s)
    ensures Inv(Next(s, step))
  {
    match step
    case PosterStep(i) =>
      if i < |s.posters| && s.posters[i] != Idle { assert s.lock == ByPoster(i); }
    case TimerStep(left) =>
    case Spurious =>
    case WaitFails =>
  }

  ghost predicate IsRun(run: seq<State>, steps: seq<Step>) {
    && |run| == |steps| + 1
    && Init(run[0])
    && forall i {:trigger steps[i]} :: 0 <= i < |steps| ==> run[i + 1] == Next(run[i], steps[i])
  }

  lemma {:induction false} RunInv(run: seq<State>, steps: seq<Step>, n: nat)
    requires IsRun(run, steps) && n < |run|
    ensures Inv(run[n])
  {
    if n > 0 {
      RunInv(run, steps, n - 1);
      NextKeepsInv(run[n - 1], steps[n - 1]);
    }
  }

  /** In every interleaving: if the timer is blocked, the list is empty or a signal is on its
      way; in particular it is never blocked on a tracker while nobody holds the lock. */
  lemma NoLostWakeUp(run: seq<State>, steps: seq<Step>, n: nat)
    requires IsRun(run, steps) && n < |run| && run[n].timer == Waiting
    ensures run[n].n == 0 || SignalPending(run[n])
    ensures run[n].lock == Free ==> run[n].n == 0
  {
    RunInv(run, steps, n);
  }

  /** Steps of its own that take the timer to its next pass over the list. */
  function Distance(t: Timer): nat {
    match t
    case Ticking => 0
    case Loop => 1
    case Asleep => 2
    case Woken => 2
    case Held => 2
    case Waiting => 2
    case Start => 3
    case Exited => 4
  }

  /** The timer takes a step and is not held up by the lock or by waiting. */
  predicate Moves(s: State, step: Step) {
    step.TimerStep? && TimerNext(s, step.left).timer != s.timer
  }

  /** How many of the steps from `n` to `m` are moves of the timer. */
  function Moved(run: seq<State>, steps: seq<Step>, n: nat, m: nat): nat
    requires |run| == |steps| + 1 && n <= m <= |steps|
  {
    if n == m then 0 else Moved(run, steps, n, m - 1) + if Moves(run[m - 1], steps[m - 1]) then 1 else 0
  }

  /** The timer is at work and has something to do, but is not at a pass. */
  predicate Due(s: State) {
    s.n > 0 && s.timer != Exited && s.timer != Ticking
  }

  /** No thread takes the timer away from its next pass, and each of its moves brings it closer. */
  lemma StepCloser(s: State, step: Step)
    requires Inv(s) && Due(s) && !step.WaitFails?
    ensures Next(s, step).n > 0 && Next(s, step).timer != Exited
    ensures Distance(Next(s, step).timer) + (if Moves(s, step) then 1 else 0) <= Distance(s.timer)
  {}

  /** From `n` to `m` the wait does not fail and the timer makes no pass. */
  ghost predicate Approaches(run: seq<State>, steps: seq<Step>, n: nat, m: nat)
    requires |run| == |steps| + 1 && n <= m <= |steps|
  {
    forall k {:trigger steps[k]} :: n <= k < m ==> !steps[k].WaitFails? && run[k].timer != Ticking
  }

  lemma {:induction false} CloserInRun(run: seq<State>, steps: seq<Step>, n: nat, m: nat)
    requires IsRun(run, steps) && n <= m <= |steps| && run[n].n > 0 && run[n].timer != Exited
    requires Approaches(run, steps, n, m)
    ensures run[m].n > 0 && run[m].timer != Exited
    ensures Moved(run, steps, n, m) + Distance(run[m].timer) <= Distance(run[n].timer)
    decreases m
  {
    if n < m {
      CloserInRun(run, steps, n, m - 1);
      RunInv(run, steps, m - 1);
      StepCloser(run[m - 1], steps[m - 1]);
      assert run[m - 1 + 1] == Next(run[m - 1], steps[m - 1]);
    }
  }

  /** In every interleaving: from a moment at which a tracker is listed, and unless its wait
      fails, the timer makes at most three moves before it is at a pass over the list, and two
      if it was waiting, whatever the posters do in between. */
  lemma TimerProgress(run: seq<State>, steps: seq<Step>, n: nat, m: nat)
    requires IsRun(run, steps) && n <= m <= |steps| && run[n].n > 0 && run[n].timer != Exited
    requires Approaches(run, steps, n, m)
    ensures Moved(run, steps, n, m) <= 3
    ensures run[n].timer == Waiting ==> Moved(run, steps, n, m) <= 2
    ensures Moved(run, steps, n, m) == 3 ==> run[m].timer == Ticking && run[m].n > 0
  {
    CloserInRun(run, steps, n, m);
  }

  /** And it can always move when no poster holds the lock: it is not waiting then. */
  lemma TimerMoves(run: seq<State>, steps: seq<Step>, n: nat, left: nat)
    requires IsRun(run, steps) && n < |run| && Due(run[n]) && !run[n].lock.ByPoster?
    ensures run[n].timer != Waiting && Moves(run[n], TimerStep(left))
  {
    RunInv(run, steps, n);
  }

  /** Steps of the timer alone. */
  function Alone(s: State, lefts: seq<nat>): State
    decreases |lefts|
  {
    if lefts == [] then s else Alone(TimerNext(s, lefts[0]), lefts[1..])
  }

  lemma AloneCons(s: State, lefts: seq<nat>, k: nat)
    requires lefts != [] && k <= |lefts[1..]|
    ensures Alone(s, lefts[..k + 1]) == Alone(TimerNext(s, lefts[0]), lefts[1..][..k])
  {
    assert lefts[..k + 1][1..] == lefts[1..][..k];
  }

  lemma {:induction false} AloneTicks(s: State, lefts: seq<nat>) returns (k: nat)
    requires Inv(s) && s.n > 0 && s.timer != Exited && !s.lock.ByPoster? && |lefts| >= Distance(s.timer)
    ensures k <= Distance(s.timer) && Alone(s, lefts[..k]).timer == Ticking && Alone(s, lefts[..k]).n == s.n
    decreases |lefts|
  {
    if s.timer == Ticking {
      return 0;
    }
    var s' := TimerNext(s, lefts[0]);
    assert s' == Next(s, TimerStep(lefts[0]));
    NextKeepsInv(s, TimerStep(lefts[0]));
    var rest := lefts[1..];
    k := AloneTicks(s', rest);
    AloneCons(s, lefts, k);
    k := k + 1;
  }

  /** Hence, while no poster holds the lock, at most three steps of the timer alone take it to
      a pass over all that is listed. */
  lemma TimerAlone(run: seq<State>, steps: seq<Step>, n: nat, lefts: seq<nat>) returns (k: nat)
    requires IsRun(run, steps) && n < |run| && run[n].n > 0 && run[n].timer != Exited && !run[n].lock.ByPoster?
    requires |lefts| == 3
    ensures k <= 3 && Alone(run[n], lefts[..k]).timer == Ticking && Alone(run[n], lefts[..k]).n == run[n].n
  {
    RunInv(run, steps, n);
    k := AloneTicks(run[n], lefts);
  }
}

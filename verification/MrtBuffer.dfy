/** The double buffer between the solver and the robot, statement by statement. */
module MrtBuffer {
  import opened Types
  import opened Interpolation

  /** The objects a call of moveToBuffer brings are named by the publication they belong to. */
  type Pointer = Option<nat>

  /** Pointers to command, primal solution and performance index. */
  datatype Triple = Triple(command: Pointer, solution: Pointer, performance: Pointer)

  function AllOf(p: Pointer): Triple {
    Triple(p, p, p)
  }

  /**
   * Threads publish with moveToBuffer, take over with updatePolicy, which only tries to lock, or reset; a thread inside
   * one of them holds the mutex. The pc counts the statements of the operation that are done, after locking.
   */
  datatype Thread =
    | Idle
    | Moving(pc: nat, own: Triple)
    | Updating(pc: nat)
    | Resetting(pc: nat)

  /**
   * The fields, and for the record: how many publications there have been, which were accepted, and how many there had
   * been at the last reset.
   */
  datatype State = State(
    mutex: Option<nat>,
    threads: seq<Thread>,
    policyReceivedEver: bool,
    newPolicyInBuffer: bool,
    warningCount: nat,
    active: Triple,
    buffer: Triple,
    published: nat,
    accepted: seq<nat>,
    publishedAtReset: nat)

  // ----- statements of the three operations

  /** Locking, with the objects the caller passed in. */
  ghost predicate StartsMove(s: State, s': State, w: nat) {
    && w < |s.threads| && s.threads[w].Idle? && s.mutex.None?
    && s' == s.(mutex := Some(w), threads := s.threads[w := Moving(0, AllOf(Some(s.published)))],
                published := s.published + 1)
  }

  /** Three swaps, the observers' modification, the two flags, unlocking. */
  ghost predicate Moves(s: State, s': State, w: nat) {
    && w < |s.threads| && s.threads[w].Moving?
    && var pc, own := s.threads[w].pc, s.threads[w].own;
       var next := s.(threads := s.threads[w := Moving(pc + 1, own)]);
       match pc
       case 0 => s' == s.(buffer := s.buffer.(command := own.command),
                          threads := s.threads[w := Moving(1, own.(command := s.buffer.command))])
       case 1 => s' == s.(buffer := s.buffer.(solution := own.solution),
                          threads := s.threads[w := Moving(2, own.(solution := s.buffer.solution))])
       case 2 => s' == s.(buffer := s.buffer.(performance := own.performance),
                          threads := s.threads[w := Moving(3, own.(performance := s.buffer.performance))])
       case 3 => s' == next
       case 4 => s' == next.(newPolicyInBuffer := true)
       case 5 => s' == next.(policyReceivedEver := true)
       case _ => s' == s.(mutex := None, threads := s.threads[w := Idle])
  }

  /** The attempt to lock: it succeeds when the mutex is free, and otherwise only counts the failure. */
  ghost predicate TriesUpdate(s: State, s': State, w: nat) {
    && w < |s.threads| && s.threads[w].Idle?
    && s' == if s.mutex.None? then s.(mutex := Some(w), threads := s.threads[w := Updating(0)])
             else s.(warningCount := s.warningCount + 1)
  }

  function AcceptedNow(active: Triple): seq<nat> {
    match active.solution
    case Some(k) => [k]
    case None => []
  }

  /** The counter, the test of the flag, three swaps, the flag, the observers' modification; then true is returned. */
  ghost predicate Updates(s: State, s': State, w: nat) {
    && w < |s.threads| && s.threads[w].Updating?
    && var pc := s.threads[w].pc;
       var next := s.(threads := s.threads[w := Updating(pc + 1)]);
       match pc
       case 0 => s' == next.(warningCount := 0)
       case 1 => s' == if s.newPolicyInBuffer then next else s.(mutex := None, threads := s.threads[w := Idle])
       case 2 => s' == next.(active := s.active.(command := s.buffer.command),
                             buffer := s.buffer.(command := s.active.command))
       case 3 => s' == next.(active := s.active.(solution := s.buffer.solution),
                             buffer := s.buffer.(solution := s.active.solution))
       case 4 => s' == next.(active := s.active.(performance := s.buffer.performance),
                             buffer := s.buffer.(performance := s.active.performance))
       case 5 => s' == next.(newPolicyInBuffer := false, accepted := s.accepted + AcceptedNow(s.active))
       case 6 => s' == next
       case _ => s' == s.(mutex := None, threads := s.threads[w := Idle])
  }

  ghost predicate StartsReset(s: State, s': State, w: nat) {
    && w < |s.threads| && s.threads[w].Idle? && s.mutex.None?
    && s' == s.(mutex := Some(w), threads := s.threads[w := Resetting(0)])
  }

  ghost predicate Resets(s: State, s': State, w: nat) {
    && w < |s.threads| && s.threads[w].Resetting?
    && var pc := s.threads[w].pc;
       var next := s.(threads := s.threads[w := Resetting(pc + 1)]);
       match pc
       case 0 => s' == next.(policyReceivedEver := false)
       case 1 => s' == next.(newPolicyInBuffer := false, publishedAtReset := s.published)
       case 2 => s' == next.(warningCount := 0)
       case 3 => s' == next.(active := s.active.(command := None))
       case 4 => s' == next.(buffer := s.buffer.(command := None))
       case 5 => s' == next.(active := s.active.(solution := None))
       case 6 => s' == next.(buffer := s.buffer.(solution := None))
       case 7 => s' == next.(active := s.active.(performance := None))
       case 8 => s' == next.(buffer := s.buffer.(performance := None))
       case _ => s' == s.(mutex := None, threads := s.threads[w := Idle])
  }

  ghost predicate StepOf(s: State, s': State, w: nat) {
    || StartsMove(s, s', w) || Moves(s, s', w) || TriesUpdate(s, s', w) || Updates(s, s', w) || StartsReset(s, s', w)
       || Resets(s, s', w)
  }

  ghost predicate Step(s: State, s': State) {
    exists w: nat :: StepOf(s, s', w)
  }

  ghost predicate Init(s: State) {
    && s.mutex.None? && (forall w | 0 <= w < |s.threads| :: s.threads[w].Idle?)
    && !s.policyReceivedEver && !s.newPolicyInBuffer && s.active == s.buffer == AllOf(None)
    && s.published == 0 && s.accepted == [] && s.publishedAtReset == 0
  }

  ghost predicate Run(run: seq<State>) {
    && run != [] && Init(run[0])
    && forall i: nat | i + 1 < |run| :: Step(run[i], run[i+1])
  }

  // ----- what holds in every reachable state

  /** The three pointers are null together or belong to one publication. */
  ghost predicate OfOneCall(t: Triple) {
    t == AllOf(t.solution)
  }

  /** The last accepted publication, unless a reset came after it. */
  function Current(s: State): Pointer {
    if s.accepted != [] && s.accepted[|s.accepted|-1] >= s.publishedAtReset then Some(s.accepted[|s.accepted|-1])
    else None
  }

  ghost predicate ActiveIsCurrent(s: State) {
    s.active == AllOf(Current(s))
  }

  /** The buffer holds the latest publication, which is later than all accepted ones. */
  ghost predicate Fresh(s: State) {
    s.published > 0 && s.buffer == AllOf(Some(s.published - 1)) && forall i | 0 <= i < |s.accepted| ::
        s.accepted[i] < s.published - 1
  }

  /** The latest publication was accepted, or was discarded by a reset. */
  ghost predicate Settled(s: State) {
    s.published <= s.publishedAtReset || (s.accepted != [] && s.accepted[|s.accepted|-1] == s.published - 1)
  }

  ghost predicate AcceptedBelow(s: State, n: nat) {
    Increasing(s.accepted) && forall i | 0 <= i < |s.accepted| :: s.accepted[i] < n
  }

  /** Some of the three pointers have been exchanged. */
  function Mixed(first: Pointer, second: Pointer, n: nat): Triple {
    Triple(if n >= 1 then first else second, if n >= 2 then first else second, if n >= 3 then first else second)
  }

  ghost predicate HolderInv(s: State, t: Thread) {
    match t
    case Idle => false
    case Moving(pc, own) =>
      && s.published > s.publishedAtReset && AcceptedBelow(s, s.published - 1) && ActiveIsCurrent(s)
      && (pc <= 0 ==> own.command == Some(s.published - 1)) && (pc <= 1 ==> own.solution == Some(s.published - 1))
      && (pc <= 2 ==> own.performance == Some(s.published - 1))
      && (pc >= 1 ==> s.buffer.command == Some(s.published - 1))
         && (pc >= 2 ==> s.buffer.solution == Some(s.published - 1))
      && (pc >= 3 ==> s.buffer.performance == Some(s.published - 1)) && (pc >= 5 ==> s.newPolicyInBuffer)
      && (pc >= 6 ==> s.policyReceivedEver)
    case Updating(pc) =>
      if pc <= 1 then FreeInv(s)
      else
        && s.published > s.publishedAtReset && s.policyReceivedEver
        && (pc <= 5 ==> s.newPolicyInBuffer && AcceptedBelow(s, s.published - 1) && OneCallEach(s, pc - 2))
        && (pc >= 6 ==> !s.newPolicyInBuffer && AcceptedBelow(s, s.published) && OneCallEach(s, 3)
                        && s.accepted != [] && s.accepted[|s.accepted|-1] == s.published - 1)
    case Resetting(pc) =>
      && AcceptedBelow(s, s.published) && (pc >= 1 ==> !s.policyReceivedEver)
      && (pc >= 2 ==> !s.newPolicyInBuffer && s.publishedAtReset == s.published)
      && (pc >= 4 ==> s.active.command.None?) && (pc >= 5 ==> s.buffer.command.None?)
         && (pc >= 6 ==> s.active.solution.None?)
      && (pc >= 7 ==> s.buffer.solution.None?) && (pc >= 8 ==> s.active.performance.None?)
         && (pc >= 9 ==> s.buffer.performance.None?)
  }

  /** What the active triple held before the swaps, n of which have been made. */
  function Former(s: State, n: int): Pointer {
    if n >= 1 then s.buffer.command else s.active.command
  }

  /** n pointers of the latest publication have been swapped from the buffer to the active triple. */
  ghost predicate OneCallEach(s: State, n: int)
    requires s.published > 0
  {
    && 0 <= n <= 3
    && s.active == Mixed(Some(s.published - 1), Former(s, n), n)
    && s.buffer == Mixed(Former(s, n), Some(s.published - 1), n)
  }

  ghost predicate FreeInv(s: State) {
    && AcceptedBelow(s, s.published) && ActiveIsCurrent(s)
    && (s.policyReceivedEver <==> s.published > s.publishedAtReset)
    && (if s.newPolicyInBuffer then Fresh(s) && s.published > s.publishedAtReset else Settled(s))
  }

  ghost predicate Inv(s: State) {
    && (forall w: nat | w < |s.threads| :: s.threads[w].Idle? <==> s.mutex != Some(w))
    && s.publishedAtReset <= s.published
    && match s.mutex
       case None => FreeInv(s)
       case Some(w) => w < |s.threads| && HolderInv(s, s.threads[w])
  }

  lemma InitHolds(s: State)
    requires Init(s)
    ensures Inv(s)
  {
  }

  lemma HolderOnly(s: State, w: nat)
    requires Inv(s) && w < |s.threads| && !s.threads[w].Idle?
    ensures s.mutex == Some(w) && HolderInv(s, s.threads[w])
    ensures forall v: nat | v < |s.threads| && v != w :: s.threads[v].Idle?
  {
  }

  lemma StartsMoveKeeps(s: State, s': State, w: nat)
    requires Inv(s) && StartsMove(s, s', w)
    ensures Inv(s')
  {
  }

  lemma MovesHolder(s: State, s': State, w: nat)
    requires w < |s.threads| && HolderInv(s, s.threads[w]) && Moves(s, s', w) && s.publishedAtReset <= s.published
    ensures if s'.threads[w].Idle? then FreeInv(s') else HolderInv(s', s'.threads[w])
  {
  }

  lemma MovesKeeps(s: State, s': State, w: nat)
    requires Inv(s) && Moves(s, s', w)
    ensures Inv(s')
  {
    hide HolderInv, FreeInv;
    HolderOnly(s, w);
    MovesHolder(s, s', w);
  }

  lemma WarningsDoNotMatter(s: State, s': State, t: Thread)
    requires s' == s.(warningCount := s'.warningCount)
    ensures HolderInv(s, t) ==> HolderInv(s', t)
  {
  }

  lemma TriesUpdateKeeps(s: State, s': State, w: nat)
    requires Inv(s) && TriesUpdate(s, s', w)
    ensures Inv(s')
  {
    hide HolderInv, FreeInv;
    if s.mutex.None? {
      LockedFree(s, s');
    } else {
      WarningsDoNotMatter(s, s', s.threads[s.mutex.value]);
    }
  }

  lemma LockedFree(s: State, s': State)
    requires FreeInv(s) && s' == s.(mutex := s'.mutex, threads := s'.threads)
    ensures HolderInv(s', Updating(0))
  {
  }

  lemma UpdatesEarly(s: State, s': State, w: nat)
    requires w < |s.threads| && HolderInv(s, s.threads[w]) && Updates(s, s', w) && s.publishedAtReset <= s.published
    requires s.threads[w].pc <= 4
    ensures if s'.threads[w].Idle? then FreeInv(s') else HolderInv(s', s'.threads[w])
  {
  }

  lemma UpdatesLate(s: State, s': State, w: nat)
    requires w < |s.threads| && HolderInv(s, s.threads[w]) && Updates(s, s', w) && s.publishedAtReset <= s.published
    requires s.threads[w].pc > 4
    ensures if s'.threads[w].Idle? then FreeInv(s') else HolderInv(s', s'.threads[w])
  {
  }

  lemma UpdatesHolder(s: State, s': State, w: nat)
    requires w < |s.threads| && HolderInv(s, s.threads[w]) && Updates(s, s', w) && s.publishedAtReset <= s.published
    ensures if s'.threads[w].Idle? then FreeInv(s') else HolderInv(s', s'.threads[w])
  {
    hide HolderInv, FreeInv;
    if s.threads[w].pc <= 4 {
      UpdatesEarly(s, s', w);
    } else {
      UpdatesLate(s, s', w);
    }
  }

  lemma UpdatesKeeps(s: State, s': State, w: nat)
    requires Inv(s) && Updates(s, s', w)
    ensures Inv(s')
  {
    hide HolderInv, FreeInv;
    HolderOnly(s, w);
    UpdatesHolder(s, s', w);
  }

  lemma StartsResetKeeps(s: State, s': State, w: nat)
    requires Inv(s) && StartsReset(s, s', w)
    ensures Inv(s')
  {
  }

  lemma ResetsEarly(s: State, s': State, w: nat)
    requires w < |s.threads| && HolderInv(s, s.threads[w]) && Resets(s, s', w) && s.publishedAtReset <= s.published
    requires s.threads[w].pc <= 4
    ensures if s'.threads[w].Idle? then FreeInv(s') else HolderInv(s', s'.threads[w])
  {
  }

  lemma ResetsLate(s: State, s': State, w: nat)
    requires w < |s.threads| && HolderInv(s, s.threads[w]) && Resets(s, s', w) && s.publishedAtReset <= s.published
    requires s.threads[w].pc > 4
    ensures if s'.threads[w].Idle? then FreeInv(s') else HolderInv(s', s'.threads[w])
  {
  }

  lemma ResetsHolder(s: State, s': State, w: nat)
    requires w < |s.threads| && HolderInv(s, s.threads[w]) && Resets(s, s', w) && s.publishedAtReset <= s.published
    ensures if s'.threads[w].Idle? then FreeInv(s') else HolderInv(s', s'.threads[w])
  {
    hide HolderInv, FreeInv;
    if s.threads[w].pc <= 4 {
      ResetsEarly(s, s', w);
    } else {
      ResetsLate(s, s', w);
    }
  }

  lemma ResetsKeeps(s: State, s': State, w: nat)
    requires Inv(s) && Resets(s, s', w)
    ensures Inv(s')
  {
    hide HolderInv, FreeInv;
    HolderOnly(s, w);
    ResetsHolder(s, s', w);
  }

  lemma {:induction false} RunKeeps(run: seq<State>, i: nat)
    requires Run(run) && i < |run|
    ensures Inv(run[i])
  {
    hide Inv, Init, StartsMove, Moves, TriesUpdate, Updates, StartsReset, Resets;
    if i == 0 {
      InitHolds(run[0]);
    } else {
      RunKeeps(run, i - 1);
      assert Step(run[i-1], run[i]);
      var s, s' := run[i-1], run[i];
      var w: nat :| StepOf(s, s', w);
      if StartsMove(s, s', w) {
        StartsMoveKeeps(s, s', w);
      } else if Moves(s, s', w) {
        MovesKeeps(s, s', w);
      } else if TriesUpdate(s, s', w) {
        TriesUpdateKeeps(s, s', w);
      } else if Updates(s, s', w) {
        UpdatesKeeps(s, s', w);
      } else if StartsReset(s, s', w) {
        StartsResetKeeps(s, s', w);
      } else {
        ResetsKeeps(s, s', w);
      }
    }
  }

  // ----- what the users of the buffer rely on

  /**
   * While no thread is inside updatePolicy or reset, and even in the middle of a publication, the active triple is of
   * one call: the last accepted one, or none since a reset.
   */
  lemma ActiveIsOfOneCall(run: seq<State>, i: nat)
    requires Run(run) && i < |run|
    requires forall w | 0 <= w < |run[i].threads| :: run[i].threads[w].Idle? || run[i].threads[w].Moving?
    ensures OfOneCall(run[i].active) && run[i].active == AllOf(Current(run[i]))
  {
    RunKeeps(run, i);
  }

  /**
   * Accepted publications strictly increase, across resets too: none is accepted twice, and none before an earlier one.
   */
  lemma AcceptedIncrease(run: seq<State>, i: nat)
    requires Run(run) && i < |run|
    ensures Increasing(run[i].accepted)
    ensures forall j | 0 <= j < |run[i].accepted| :: run[i].accepted[j] < run[i].published
  {
    RunKeeps(run, i);
  }

  /** About to return true: all three active pointers belong to the latest publication, which has just been accepted. */
  lemma TrueMeansLatest(run: seq<State>, i: nat, w: nat)
    requires Run(run) && i < |run| && w < |run[i].threads| && run[i].threads[w].Updating? && run[i].threads[w].pc >= 6
    ensures run[i].published > 0 && run[i].active == AllOf(Some(run[i].published - 1))
    ensures run[i].accepted != [] && run[i].accepted[|run[i].accepted|-1] == run[i].published - 1
  {
    RunKeeps(run, i);
    HolderOnly(run[i], w);
    var s := run[i];
  }

  /**
   * With the lock won, false is returned only when the latest publication was accepted before or discarded by a reset.
   */
  lemma FalseMeansNothingNew(run: seq<State>, i: nat, w: nat)
    requires Run(run) && i < |run| && w < |run[i].threads| && run[i].threads[w] == Updating(1)
             && !run[i].newPolicyInBuffer
    ensures Settled(run[i])
  {
    RunKeeps(run, i);
    HolderOnly(run[i], w);
  }

  /** One thread at a time is inside the operations. */
  lemma MutualExclusion(run: seq<State>, i: nat, v: nat, w: nat)
    requires Run(run) && i < |run| && v < w < |run[i].threads|
    ensures run[i].threads[v].Idle? || run[i].threads[w].Idle?
  {
    RunKeeps(run, i);
  }

  /** Between the operations the flag says whether anything was published since the last reset. */
  lemma ReceivedIffPublished(run: seq<State>, i: nat)
    requires Run(run) && i < |run| && run[i].mutex.None?
    ensures run[i].policyReceivedEver <==> run[i].published > run[i].publishedAtReset
  {
    RunKeeps(run, i);
  }

  /** A reset that is about to return has dropped everything that was published before. */
  lemma ResetDropsAll(run: seq<State>, i: nat, w: nat)
    requires Run(run) && i < |run| && w < |run[i].threads| && run[i].threads[w].Resetting? && run[i].threads[w].pc >= 9
    ensures var s := run[i];
            && s.active == s.buffer == AllOf(None) && !s.newPolicyInBuffer && !s.policyReceivedEver
            && s.publishedAtReset == s.published
  {
    RunKeeps(run, i);
    HolderOnly(run[i], w);
  }
}

/** The strong/weak reference counting protocol of RefBase for the standard object lifetime
    (libutils/RefBase.cpp), as interleaved atomic steps of any number of threads.

    Every __sync_* operation and every plain read of a counter is one step.  A thread's program
    counter names the next atomic operation it will run.  References are owned by threads, and a
    thread only drops references it owns. */
module RefBase {

  // INITIAL_STRONG_VALUE: what mStrong holds before the first strong reference settles.
  const INITIAL: int := 0x1000_0000

  datatype Pc =
    | Idle
    | IncStrongAdd               // incStrong: incWeak done, about to add to mStrong
    | IncStrongFirst             // incStrong: saw INITIAL, about to subtract INITIAL
    | DecStrongDelete            // decStrong: dropped the last strong reference, about to delete the object
    | DecWeakSub                 // decStrong or a failed promotion: about to run decWeak
    | DecWeakLast                // decWeak: mWeak went to 0, about to reclaim
    | TryRead                    // attemptIncStrong: about to read mStrong
    | TryCas(cur: int)           // first CAS loop
    | TryInitialRead             // second loop: about to re-read mStrong
    | TryInitialCas(cur: int)    // second CAS loop
    | FixRead                    // promotion succeeded, about to read mStrong for the fix-up
    | FixCas(cur: int)           // fix-up CAS loop

  // A thread: where it is, and how many strong and weak references it owns.
  datatype Thread = Thread(pc: Pc, strong: nat, weak: nat)

  /** `raw` says that thread 0, the creator, still has only the pointer it got from `new`.
      `destroyed` and `freed` count destructions of the object and deletions of the counter
      block; `faults` counts uses of either after that. */
  datatype State = State(strong: int, weak: int, threads: seq<Thread>, raw: bool,
                         destroyed: nat, freed: nat, faults: nat)

  datatype Action =
    | IncStrong | DecStrong | CreateWeak | DecWeak | Promote   // the public calls
    | SettleForWeak                                            // the creator gives up its raw pointer
    | GiveStrong(to: nat) | GiveWeak(to: nat)                  // hand an owned reference to another thread
    | Run                                                      // next atomic operation of a call in progress

  // ------------------------------------------------------------------ counting over threads

  /** What threads contribute: strong references, weak references (a strong reference always carries
      a weak one, and a call in progress may own one more), and how many are at line 225, about to
      settle the sentinel, about to delete the object, about to reclaim. */
  datatype Counts = Counts(strong: nat, weak: nat, first: nat, pend: nat, delete: nat, last: nat) {
    function Plus(c: Counts): Counts {
      Counts(strong + c.strong, weak + c.weak, first + c.first, pend + c.pend, delete + c.delete, last + c.last)
    }

    predicate AtLeast(c: Counts) {
      strong >= c.strong && weak >= c.weak && first >= c.first && pend >= c.pend && delete >= c.delete && last >= c.last
    }
  }

  function Of(t: Thread): Counts {
    var borrowed := match t.pc
      case IncStrongAdd => 1
      case DecStrongDelete => 1
      case DecWeakSub => 1
      case TryRead => 1
      case TryCas(_) => 1
      case TryInitialRead => 1
      case TryInitialCas(_) => 1
      case _ => 0;
    Counts(t.strong, t.weak + t.strong + borrowed,
           if t.pc.IncStrongFirst? then 1 else 0,
           if t.pc.IncStrongFirst? || t.pc.FixRead? || t.pc.FixCas? then 1 else 0,
           if t.pc.DecStrongDelete? then 1 else 0,
           if t.pc.DecWeakLast? then 1 else 0)
  }

  function Sum(cs: seq<Counts>): Counts {
    if cs == [] then Counts(0, 0, 0, 0, 0, 0) else cs[0].Plus(Sum(cs[1..]))
  }

  function Each(ts: seq<Thread>): seq<Counts> {
    seq(|ts|, i requires 0 <= i < |ts| => Of(ts[i]))
  }

  function Total(ts: seq<Thread>): Counts { Sum(Each(ts)) }

  lemma {:induction false} SumAfterPut(cs: seq<Counts>, i: nat, c: Counts)
    requires i < |cs|
    ensures Sum(cs[i := c]).Plus(cs[i]) == Sum(cs).Plus(c)
    ensures Sum(cs).AtLeast(cs[i])
  {
    if i == 0 {
      assert cs[0 := c][1..] == cs[1..];
    } else {
      assert cs[i := c][1..] == cs[1..][i - 1 := c];
      SumAfterPut(cs[1..], i - 1, c);
    }
  }

  lemma {:induction false} SumAtLeastTwo(cs: seq<Counts>, i: nat, j: nat)
    requires i < |cs| && j < |cs| && i != j
    ensures Sum(cs).AtLeast(cs[i].Plus(cs[j]))
  {
    if i == 0 {
      SumAfterPut(cs[1..], j - 1, cs[j]);
    } else if j == 0 {
      SumAfterPut(cs[1..], i - 1, cs[i]);
    } else {
      SumAtLeastTwo(cs[1..], i - 1, j - 1);
    }
  }

  lemma {:induction false} SumHasPending(cs: seq<Counts>) returns (i: nat)
    requires Sum(cs).pend > 0
    ensures i < |cs| && cs[i].pend > 0
  {
    if cs[0].pend > 0 {
      i := 0;
    } else {
      var k := SumHasPending(cs[1..]);
      i := k + 1;
    }
  }

  lemma {:induction false} SumOfZeros(cs: seq<Counts>)
    requires forall i :: 0 <= i < |cs| ==> cs[i] == Counts(0, 0, 0, 0, 0, 0)
    ensures Sum(cs) == Counts(0, 0, 0, 0, 0, 0)
  {
    if cs != [] {
      assert forall i :: 0 <= i < |cs[1..]| ==> cs[1..][i] == cs[i + 1];
      SumOfZeros(cs[1..]);
    }
  }

  lemma {:induction false} SumStrongAtMostWeak(cs: seq<Counts>)
    requires forall i :: 0 <= i < |cs| ==> cs[i].strong <= cs[i].weak
    ensures Sum(cs).strong <= Sum(cs).weak
  {
    if cs != [] {
      assert forall i :: 0 <= i < |cs[1..]| ==> cs[1..][i] == cs[i + 1];
      SumStrongAtMostWeak(cs[1..]);
    }
  }

  lemma {:induction false} SumFirstAtMostPend(cs: seq<Counts>)
    requires forall i :: 0 <= i < |cs| ==> cs[i].first <= cs[i].pend
    ensures Sum(cs).first <= Sum(cs).pend
  {
    if cs != [] {
      assert forall i :: 0 <= i < |cs[1..]| ==> cs[1..][i] == cs[i + 1];
      SumFirstAtMostPend(cs[1..]);
    }
  }

  // Replacing one thread changes the totals by the difference of its contributions.
  lemma TotalAfterPut(ts: seq<Thread>, i: nat, t: Thread)
    requires i < |ts|
    ensures Total(ts[i := t]).Plus(Of(ts[i])) == Total(ts).Plus(Of(t))
    ensures Total(ts).AtLeast(Of(ts[i]))
    ensures Total(ts).strong <= Total(ts).weak
    ensures Total(ts[i := t]).strong <= Total(ts[i := t]).weak
  {
    assert Each(ts[i := t]) == Each(ts)[i := Of(t)];
    SumAfterPut(Each(ts), i, Of(t));
    SumStrongAtMostWeak(Each(ts));
    SumStrongAtMostWeak(Each(ts[i := t]));
  }

  // ------------------------------------------------------------------ the protocol

  /** The state right after `new`: mStrong is the sentinel, mWeak is 0, the creator has the raw pointer. */
  function Initial(n: nat): State
    requires n > 0
  {
    State(INITIAL, 0, seq(n, _ => Thread(Idle, 0, 0)), true, 0, 0, 0)
  }

  /** What callers must respect.  Calls need a reference to call through, only owned references are
      dropped, and fewer than 2^28 references exist.  A raw pointer is not counted: while the creator
      still has it, no thread drops its only strong reference and nobody drops the last weak one,
      as either would destroy the object under the creator. */
  predicate Enabled(s: State, i: nat, a: Action) {
    i < |s.threads| &&
    var t := s.threads[i];
    match a
    case IncStrong => t.pc == Idle && (t.strong > 0 || (s.raw && i == 0)) && s.weak + 1 < INITIAL
    case DecStrong => t.pc == Idle && t.strong > 0 && (s.raw ==> t.strong > 1)
    case CreateWeak => t.pc == Idle && (t.strong > 0 || t.weak > 0 || (s.raw && i == 0)) && s.weak + 1 < INITIAL
    case DecWeak => t.pc == Idle && t.weak > 0 && (s.raw ==> s.weak > 1)
    case Promote => t.pc == Idle && t.weak > 0 && s.weak + 1 < INITIAL
    case SettleForWeak => t.pc == Idle && s.raw && i == 0 && t.weak > 0
    case GiveStrong(j) => t.pc == Idle && t.strong > 0 && j < |s.threads| && j != i
    case GiveWeak(j) => t.pc == Idle && t.weak > 0 && j < |s.threads| && j != i
    case Run => t.pc != Idle
  }

  function Put(s: State, i: nat, t: Thread): State
    requires i < |s.threads|
  {
    s.(threads := s.threads[i := t])
  }

  // A step reads or writes the counter block.
  function TouchBlock(s: State): State {
    if s.freed > 0 then s.(faults := s.faults + 1) else s
  }

  // A step calls through the object.
  function TouchObject(s: State): State {
    if s.destroyed > 0 then s.(faults := s.faults + 1) else s
  }

  // ~RefBase: frees the block only if no strong reference was ever taken.
  function DestroyObject(s: State): State {
    var s1 := TouchBlock(TouchObject(s));
    var s2 := s1.(destroyed := s1.destroyed + 1);
    if s2.strong == INITIAL then s2.(freed := s2.freed + 1) else s2
  }

  /** Effect of one step of thread i. */
  function Next(s: State, i: nat, a: Action): State
    requires Enabled(s, i, a)
  {
    var t := s.threads[i];
    match a
    case IncStrong =>
      Put(TouchBlock(TouchObject(s)).(weak := s.weak + 1), i, t.(pc := IncStrongAdd))
    case DecStrong =>
      Put(TouchBlock(TouchObject(s)).(strong := s.strong - 1), i,
          t.(strong := t.strong - 1, pc := if s.strong == 1 then DecStrongDelete else DecWeakSub))
    case CreateWeak =>
      Put(TouchBlock(s).(weak := s.weak + 1), i, t.(weak := t.weak + 1))
    case DecWeak =>
      Put(TouchBlock(s).(weak := s.weak - 1), i,
          t.(weak := t.weak - 1, pc := if s.weak == 1 then DecWeakLast else Idle))
    case Promote =>
      Put(TouchBlock(s).(weak := s.weak + 1), i, t.(pc := TryRead))
    case SettleForWeak =>
      s.(raw := false)
    case GiveStrong(j) =>
      Put(Put(s, i, t.(strong := t.strong - 1)), j, s.threads[j].(strong := s.threads[j].strong + 1))
    case GiveWeak(j) =>
      Put(Put(s, i, t.(weak := t.weak - 1)), j, s.threads[j].(weak := s.threads[j].weak + 1))
    case Run =>
      RunStep(s, i)
  }

  // Where attemptIncStrong goes after reading `cur` in its first loop.
  function AfterTryRead(cur: int): Pc {
    if cur > 0 && cur != INITIAL then TryCas(cur)
    else if cur <= 0 then DecWeakSub
    else TryInitialCas(cur)
  }

  function RunStep(s: State, i: nat): State
    requires i < |s.threads| && s.threads[i].pc != Idle
  {
    var t := s.threads[i];
    match t.pc
    case Idle => s
    case IncStrongAdd =>
      Put(TouchBlock(s).(strong := s.strong + 1, raw := s.raw && i != 0), i,
          t.(strong := t.strong + 1, pc := if s.strong == INITIAL then IncStrongFirst else Idle))
    case IncStrongFirst =>
      Put(TouchBlock(TouchObject(s)).(strong := s.strong - INITIAL), i, t.(pc := Idle))
    case DecStrongDelete =>
      Put(DestroyObject(s), i, t.(pc := DecWeakSub))
    case DecWeakSub =>
      Put(TouchBlock(s).(weak := s.weak - 1), i, t.(pc := if s.weak == 1 then DecWeakLast else Idle))
    case DecWeakLast =>
      var s1 := TouchBlock(s);
      Put(if s.strong == INITIAL then DestroyObject(s1) else s1.(freed := s1.freed + 1), i, t.(pc := Idle))
    case TryRead =>
      Put(TouchBlock(s), i, t.(pc := AfterTryRead(s.strong)))
    case TryCas(cur) =>
      if s.strong == cur
      then Put(TouchBlock(s).(strong := cur + 1), i, t.(strong := t.strong + 1, pc := FixRead))
      else Put(TouchBlock(s), i, t.(pc := TryRead))
    case TryInitialRead =>
      Put(TouchBlock(s), i, t.(pc := if s.strong <= 0 then DecWeakSub else TryInitialCas(s.strong)))
    case TryInitialCas(cur) =>
      if s.strong == cur
      then
        var s1 := if cur < INITIAL then TouchObject(s) else s;  // onLastStrongRef
        Put(TouchBlock(s1).(strong := cur + 1), i, t.(strong := t.strong + 1, pc := FixRead))
      else Put(TouchBlock(s), i, t.(pc := TryInitialRead))
    case FixRead =>
      Put(TouchBlock(s), i, t.(pc := if s.strong >= INITIAL then FixCas(s.strong) else Idle))
    case FixCas(cur) =>
      if s.strong == cur
      then Put(TouchBlock(s).(strong := cur - INITIAL), i, t.(pc := Idle))
      else Put(TouchBlock(s), i, t.(pc := FixRead))
  }

  /** The one overlap the protocol does not survive: a promotion's fix-up removes the sentinel while
      the first incStrong, which saw it too, has yet to run its own subtraction. */
  predicate Race(s: State, i: nat, a: Action)
    requires Enabled(s, i, a)
  {
    var pc := s.threads[i].pc;
    a == Run && pc.FixCas? && pc.cur == s.strong && Total(s.threads).first > 0
  }

  // ------------------------------------------------------------------ the invariant

  // Local facts about a thread; `raw` and `creator` as in the state it is part of.
  predicate ThreadOk(t: Thread, raw: bool, creator: bool) {
    && (Of(t).pend > 0 ==> t.strong > 0)
    && (t.pc.IncStrongAdd? ==> t.strong > 0 || (raw && creator))
    && (t.pc.TryCas? ==> t.pc.cur > 0 && t.pc.cur != INITIAL)
    && (t.pc.TryInitialCas? ==> t.pc.cur > 0)
    && (t.pc.FixCas? ==> t.pc.cur >= INITIAL)
    && (raw ==> !t.pc.DecStrongDelete? && !t.pc.DecWeakLast? && (t.pc.DecWeakSub? ==> t.strong > 0))
  }

  /** The counter part of the invariant, as a relation between a state and the totals of its threads. */
  ghost predicate CountersOk(s: State, c: Counts) {
    // the counters count
    && s.weak == c.weak < INITIAL
    && (s.strong == c.strong || s.strong == c.strong + INITIAL)
    // while the sentinel is in, whoever will take it out still owns a strong reference
    && (s.strong >= INITIAL && c.strong > 0 ==> c.pend > 0)
    && c.first <= 1 && (c.first == 1 ==> s.strong >= INITIAL)
    // the creator's raw pointer
    && (s.raw ==> s.strong > 0 && s.destroyed == 0 && s.freed == 0 && c.delete == 0 && c.last == 0)
    // life of the object
    && s.faults == 0 && s.destroyed <= 1 && s.freed <= 1
    && (s.strong >= INITIAL ==> c.delete == 0 && s.destroyed == s.freed)
    && (c.strong > 0 ==> s.destroyed == 0 && c.delete == 0)
    && (s.strong == 0 ==> s.destroyed + c.delete == 1)
    // life of the counter block
    && c.last <= 1
    && (s.weak > 0 ==> s.freed == 0 && c.last == 0)
    && (s.weak == 0 && !s.raw ==> s.freed + c.last == 1)
  }

  ghost predicate ThreadsOk(s: State) {
    |s.threads| > 0 && forall i :: 0 <= i < |s.threads| ==> ThreadOk(s.threads[i], s.raw, i == 0)
  }

  ghost predicate Inv(s: State) {
    ThreadsOk(s) && CountersOk(s, Total(s.threads))
  }

  // If another thread is about to settle the sentinel, it owns a reference besides thread i's.
  lemma PendingOwnsAnother(s: State, i: nat)
    requires Inv(s) && i < |s.threads| && Of(s.threads[i]).pend == 0
    requires Total(s.threads).pend > 0
    ensures Total(s.threads).strong > s.threads[i].strong
  {
    var j := SumHasPending(Each(s.threads));
    assert ThreadOk(s.threads[j], s.raw, j == 0);
    SumAtLeastTwo(Each(s.threads), i, j);
  }

  lemma ClientStepKeepsCounters(s: State, i: nat, a: Action)
    requires Inv(s) && Enabled(s, i, a)
    requires !a.Run? && !a.GiveStrong? && !a.GiveWeak?
    ensures CountersOk(Next(s, i, a), Total(Next(s, i, a).threads))
    ensures ThreadOk(Next(s, i, a).threads[i], Next(s, i, a).raw, i == 0)
  {
    var t' := Next(s, i, a).threads[i];
    assert Next(s, i, a).threads == s.threads[i := t'];
    TotalAfterPut(s.threads, i, t');
    if a.DecStrong? && s.strong >= INITIAL {
      PendingOwnsAnother(s, i);
    }
  }

  // Moving a contribution from one thread to another keeps the totals.
  lemma TotalAfterMove(ts: seq<Thread>, i: nat, t: Thread, j: nat, u: Thread)
    requires i < |ts| && j < |ts| && i != j
    requires Of(t).Plus(Of(u)) == Of(ts[i]).Plus(Of(ts[j]))
    ensures Total(ts[i := t][j := u]) == Total(ts)
  {
    TotalAfterPut(ts, i, t);
    TotalAfterPut(ts[i := t], j, u);
  }

  lemma GiveKeepsCounters(s: State, i: nat, a: Action)
    requires Inv(s) && Enabled(s, i, a) && (a.GiveStrong? || a.GiveWeak?)
    ensures CountersOk(Next(s, i, a), Total(Next(s, i, a).threads))
  {
    var ts, ts' := s.threads, Next(s, i, a).threads;
    assert ts' == ts[i := ts'[i]][a.to := ts'[a.to]];
    TotalAfterMove(ts, i, ts'[i], a.to, ts'[a.to]);
  }

  predicate Incs(pc: Pc) { pc.IncStrongAdd? || pc.IncStrongFirst? }

  predicate Decs(pc: Pc) { pc.DecStrongDelete? || pc.DecWeakSub? || pc.DecWeakLast? }

  // Nobody is about to settle the sentinel without owning a reference.
  lemma NoOwnerNoPending(s: State)
    requires ThreadsOk(s) && Total(s.threads).strong == 0
    ensures Total(s.threads).pend == 0 && Total(s.threads).first == 0
  {
    if Total(s.threads).pend > 0 {
      var j := SumHasPending(Each(s.threads));
      assert ThreadOk(s.threads[j], s.raw, j == 0);
      TotalAfterPut(s.threads, j, s.threads[j]);
    }
    SumFirstAtMostPend(Each(s.threads));
  }

  lemma IncKeepsCounters(s: State, i: nat)
    requires Inv(s) && i < |s.threads| && Incs(s.threads[i].pc)
    ensures CountersOk(RunStep(s, i), Total(RunStep(s, i).threads))
    ensures ThreadOk(RunStep(s, i).threads[i], RunStep(s, i).raw, i == 0)
  {
    var t' := RunStep(s, i).threads[i];
    assert ThreadOk(s.threads[i], s.raw, i == 0);
    assert RunStep(s, i).threads == s.threads[i := t'];
    TotalAfterPut(s.threads, i, t');
    if s.strong == INITIAL {
      NoOwnerNoPending(s);
    }
  }

  lemma DecKeepsCounters(s: State, i: nat)
    requires Inv(s) && i < |s.threads| && Decs(s.threads[i].pc)
    ensures CountersOk(RunStep(s, i), Total(RunStep(s, i).threads))
    ensures ThreadOk(RunStep(s, i).threads[i], RunStep(s, i).raw, i == 0)
  {
    var t' := RunStep(s, i).threads[i];
    assert ThreadOk(s.threads[i], s.raw, i == 0);
    assert RunStep(s, i).threads == s.threads[i := t'];
    TotalAfterPut(s.threads, i, t');
    if s.strong == INITIAL {
      NoOwnerNoPending(s);
    }
  }

  lemma TryReadKeepsCounters(s: State, i: nat)
    requires Inv(s) && i < |s.threads| && (s.threads[i].pc.TryRead? || s.threads[i].pc.TryInitialRead?)
    ensures CountersOk(RunStep(s, i), Total(RunStep(s, i).threads))
    ensures ThreadOk(RunStep(s, i).threads[i], RunStep(s, i).raw, i == 0)
  {
    var t' := RunStep(s, i).threads[i];
    assert ThreadOk(s.threads[i], s.raw, i == 0);
    assert RunStep(s, i).threads == s.threads[i := t'];
    TotalAfterPut(s.threads, i, t');
  }

  lemma TryCasKeepsCounters(s: State, i: nat)
    requires Inv(s) && i < |s.threads| && s.threads[i].pc.TryCas?
    ensures CountersOk(RunStep(s, i), Total(RunStep(s, i).threads))
    ensures ThreadOk(RunStep(s, i).threads[i], RunStep(s, i).raw, i == 0)
  {
    var t' := RunStep(s, i).threads[i];
    assert ThreadOk(s.threads[i], s.raw, i == 0);
    assert RunStep(s, i).threads == s.threads[i := t'];
    TotalAfterPut(s.threads, i, t');
  }

  lemma TryInitialCasKeepsCounters(s: State, i: nat)
    requires Inv(s) && i < |s.threads| && s.threads[i].pc.TryInitialCas?
    ensures CountersOk(RunStep(s, i), Total(RunStep(s, i).threads))
    ensures ThreadOk(RunStep(s, i).threads[i], RunStep(s, i).raw, i == 0)
  {
    var t' := RunStep(s, i).threads[i];
    assert ThreadOk(s.threads[i], s.raw, i == 0);
    assert RunStep(s, i).threads == s.threads[i := t'];
    TotalAfterPut(s.threads, i, t');
  }

  lemma FixKeepsCounters(s: State, i: nat)
    requires Inv(s) && i < |s.threads| && (s.threads[i].pc.FixRead? || s.threads[i].pc.FixCas?)
    requires !Race(s, i, Run)
    ensures CountersOk(RunStep(s, i), Total(RunStep(s, i).threads))
    ensures ThreadOk(RunStep(s, i).threads[i], RunStep(s, i).raw, i == 0)
  {
    var t' := RunStep(s, i).threads[i];
    assert ThreadOk(s.threads[i], s.raw, i == 0);
    assert RunStep(s, i).threads == s.threads[i := t'];
    TotalAfterPut(s.threads, i, t');
  }

  // The other threads keep their local facts: only `raw` can change under them, and only to false.
  lemma OthersKeepFacts(s: State, i: nat, a: Action, k: nat)
    requires ThreadsOk(s) && Enabled(s, i, a) && k < |s.threads|
    requires k != i || a.GiveStrong? || a.GiveWeak?
    ensures var s' := Next(s, i, a); |s'.threads| == |s.threads| && ThreadOk(s'.threads[k], s'.raw, k == 0)
  {
    assert ThreadOk(s.threads[k], s.raw, k == 0);
    assert ThreadOk(s.threads[i], s.raw, i == 0);
  }

  lemma ActorKeepsCounters(s: State, i: nat, a: Action)
    requires Inv(s) && Enabled(s, i, a) && !Race(s, i, a)
    requires !a.GiveStrong? && !a.GiveWeak?
    ensures CountersOk(Next(s, i, a), Total(Next(s, i, a).threads))
    ensures ThreadOk(Next(s, i, a).threads[i], Next(s, i, a).raw, i == 0)
  {
    if !a.Run? {
      ClientStepKeepsCounters(s, i, a);
    } else if Incs(s.threads[i].pc) {
      IncKeepsCounters(s, i);
    } else if Decs(s.threads[i].pc) {
      DecKeepsCounters(s, i);
    } else {
      match s.threads[i].pc
      case TryCas(_) => TryCasKeepsCounters(s, i);
      case TryInitialCas(_) => TryInitialCasKeepsCounters(s, i);
      case FixRead => FixKeepsCounters(s, i);
      case FixCas(_) => FixKeepsCounters(s, i);
      case _ => TryReadKeepsCounters(s, i);
    }
  }

  /** Every step other than the race keeps the invariant. */
  lemma StepKeepsInv(s: State, i: nat, a: Action)
    requires Inv(s) && Enabled(s, i, a) && !Race(s, i, a)
    ensures Inv(Next(s, i, a))
  {
    var s' := Next(s, i, a);
    forall k: nat | k < |s.threads| ensures |s'.threads| == |s.threads| && ThreadOk(s'.threads[k], s'.raw, k == 0) {
      if k == i && !a.GiveStrong? && !a.GiveWeak? {
        ActorKeepsCounters(s, i, a);
      } else {
        OthersKeepFacts(s, i, a, k);
      }
    }
    if a.GiveStrong? || a.GiveWeak? {
      GiveKeepsCounters(s, i, a);
    } else {
      ActorKeepsCounters(s, i, a);
    }
  }

  // ------------------------------------------------------------------ whole runs

  datatype Event = Event(thread: nat, action: Action)

  /** Every step respects the callers' rules and none is the race. */
  predicate RaceFree(s: State, run: seq<Event>)
    decreases run
  {
    run == [] ||
    var e := run[0];
    Enabled(s, e.thread, e.action) && !Race(s, e.thread, e.action) && RaceFree(Next(s, e.thread, e.action), run[1..])
  }

  function End(s: State, run: seq<Event>): State
    requires RaceFree(s, run)
    decreases run
  {
    if run == [] then s else End(Next(s, run[0].thread, run[0].action), run[1..])
  }

  lemma InitialInv(n: nat)
    requires n > 0
    ensures Inv(Initial(n))
  {
    SumOfZeros(Each(Initial(n).threads));
  }

  lemma {:induction false} RunKeepsInv(s: State, run: seq<Event>)
    requires Inv(s) && RaceFree(s, run)
    ensures Inv(End(s, run))
    decreases run
  {
    if run != [] {
      StepKeepsInv(s, run[0].thread, run[0].action);
      RunKeepsInv(Next(s, run[0].thread, run[0].action), run[1..]);
    }
  }

  lemma {:induction false} SumDeleteAtMostWeak(cs: seq<Counts>)
    requires forall i :: 0 <= i < |cs| ==> cs[i].delete <= cs[i].weak
    ensures Sum(cs).delete <= Sum(cs).weak
  {
    if cs != [] {
      assert forall i :: 0 <= i < |cs[1..]| ==> cs[1..][i] == cs[i + 1];
      SumDeleteAtMostWeak(cs[1..]);
    }
  }

  lemma InvIsSafe(s: State)
    requires Inv(s)
    ensures s.freed == 1 ==> s.destroyed == 1 && Total(s.threads).weak == 0
    ensures Total(s.threads).strong < INITIAL
  {
    var c := Total(s.threads);
    SumStrongAtMostWeak(Each(s.threads));
    SumDeleteAtMostWeak(Each(s.threads));
    if s.freed == 1 {
      assert c.weak == 0 && c.strong == 0 && c.delete == 0;
    }
  }

  /** Safety over every run of any number of threads: the object is destroyed at most once and never
      while a strong reference or the creator's raw pointer exists; the block is freed at most once,
      only after the object is gone and no reference is left; nothing is used after it is gone; and
      the counters are exact. */
  lemma EveryRunIsSafe(n: nat, run: seq<Event>)
    requires n > 0 && RaceFree(Initial(n), run)
    ensures var s := End(Initial(n), run);
            var c := Total(s.threads);
            && s.faults == 0 && s.destroyed <= 1 && s.freed <= 1
            && (s.freed == 1 ==> s.destroyed == 1 && c.weak == 0)
            && (c.strong > 0 || s.raw ==> s.destroyed == 0)
            && s.weak == c.weak
            && s.strong == (if s.strong >= INITIAL then INITIAL + c.strong else c.strong)
  {
    InitialInv(n);
    RunKeepsInv(Initial(n), run);
    InvIsSafe(End(Initial(n), run));
  }

  /** Nothing leaks: when no call is in progress and no reference or raw pointer is left, the object
      has been destroyed and the block freed, each exactly once. */
  lemma QuiescentRunReclaims(n: nat, run: seq<Event>)
    requires n > 0 && RaceFree(Initial(n), run)
    requires var s := End(Initial(n), run);
             !s.raw && forall i :: 0 <= i < |s.threads| ==> s.threads[i] == Thread(Idle, 0, 0)
    ensures End(Initial(n), run).destroyed == 1 && End(Initial(n), run).freed == 1
  {
    InitialInv(n);
    RunKeepsInv(Initial(n), run);
    SumOfZeros(Each(End(Initial(n), run).threads));
  }

  // attemptIncStrong is past its CAS and will return true.
  predicate Granted(t: Thread) { t.pc.FixRead? || t.pc.FixCas? }

  /** Once mStrong has reached 0 it stays 0, nobody ever owns a strong reference again, and no
      promotion, running or yet to come, succeeds. */
  lemma {:induction false} StrongZeroIsFinal(s: State, run: seq<Event>)
    requires Inv(s) && s.strong == 0 && RaceFree(s, run)
    ensures var s' := End(s, run);
            && s'.strong == 0
            && forall i :: 0 <= i < |s'.threads| ==> s'.threads[i].strong == 0 && !Granted(s'.threads[i])
    decreases run
  {
    if run == [] {
      NoOwnerNoPending(s);
      forall i | 0 <= i < |s.threads| ensures s.threads[i].strong == 0 && !Granted(s.threads[i]) {
        TotalAfterPut(s.threads, i, s.threads[i]);
      }
    } else {
      var i, a := run[0].thread, run[0].action;
      ZeroStepStaysZero(s, i, a);
      StepKeepsInv(s, i, a);
      StrongZeroIsFinal(Next(s, i, a), run[1..]);
    }
  }

  lemma ZeroStepStaysZero(s: State, i: nat, a: Action)
    requires Inv(s) && s.strong == 0 && Enabled(s, i, a)
    ensures Next(s, i, a).strong == 0
  {
    NoOwnerNoPending(s);
    TotalAfterPut(s.threads, i, s.threads[i]);
    assert ThreadOk(s.threads[i], s.raw, i == 0);
  }

  // ------------------------------------------------------------------ what calls achieve

  // Between the read of mStrong and the compare-and-swap that takes a reference.
  predicate Promoting(pc: Pc) { pc.TryRead? || pc.TryCas? || pc.TryInitialRead? || pc.TryInitialCas? }

  /** A promotion gives up only when it sees mStrong at or below 0: the object has no strong owner then. */
  lemma GivesUpOnlyAtZero(s: State, i: nat)
    requires Inv(s) && i < |s.threads| && Promoting(s.threads[i].pc)
    requires var pc := Next(s, i, Run).threads[i].pc; !Promoting(pc) && !Granted(Next(s, i, Run).threads[i])
    ensures s.strong <= 0 && Total(s.threads).strong == 0 && !s.raw
  {
    assert ThreadOk(s.threads[i], s.raw, i == 0);
  }

  /** A run of one call by one thread that nobody interrupts. */
  predicate Solo(run: seq<Event>, i: nat, call: Action) {
    run != [] && run[0] == Event(i, call) && forall k :: 0 < k < |run| ==> run[k] == Event(i, Run)
  }

  // One step in front of a run.
  lemma StepFirst(s: State, i: nat, a: Action, run: seq<Event>)
    requires Enabled(s, i, a) && !Race(s, i, a) && RaceFree(Next(s, i, a), run)
    ensures RaceFree(s, [Event(i, a)] + run) && End(s, [Event(i, a)] + run) == End(Next(s, i, a), run)
  {
    assert ([Event(i, a)] + run)[1..] == run;
  }

  // The state in which thread i is t, mStrong is `strong` and mWeak is `weak`.
  function With(s: State, i: nat, t: Thread, strong: int, weak: int): State
    requires i < |s.threads|
  {
    s.(threads := s.threads[i := t], strong := strong, weak := weak)
  }

  // One operation of thread i in front of a run.
  lemma RunFirst(s: State, i: nat, run: seq<Event>)
    requires i < |s.threads| && s.threads[i].pc != Idle && !Race(s, i, Run) && RaceFree(RunStep(s, i), run)
    ensures RaceFree(s, [Event(i, Run)] + run) && End(s, [Event(i, Run)] + run) == End(RunStep(s, i), run)
  {
    StepFirst(s, i, Run, run);
  }

  predicate OnlyRuns(run: seq<Event>, i: nat) {
    forall k :: 0 <= k < |run| ==> run[k] == Event(i, Run)
  }

  // The sentinel is taken out unless another first incStrong will do it.
  function Settled(strong: int): int { if strong < INITIAL then strong else strong - INITIAL }

  // The fix-up of a promotion that took its reference.
  lemma FixUpEnds(s: State, i: nat, t: Thread, strong: int, weak: int)
      returns (run: seq<Event>)
    requires i < |s.threads| && s.freed == 0 && t.pc.FixRead?
    requires strong < INITIAL || Total(s.threads[i := t]).first == 0
    ensures OnlyRuns(run, i) && RaceFree(With(s, i, t, strong, weak), run)
    ensures End(With(s, i, t, strong, weak), run) == With(s, i, t.(pc := Idle), Settled(strong), weak)
  {
    var s0 := With(s, i, t, strong, weak);
    run := [];
    if strong >= INITIAL {
      var t1 := t.(pc := FixCas(strong));
      var s1 := With(s, i, t1, strong, weak);
      TotalAfterPut(s.threads[i := t], i, t1);
      assert s.threads[i := t][i := t1] == s.threads[i := t1];
      assert RunStep(s1, i) == With(s, i, t.(pc := Idle), strong - INITIAL, weak);
      RunFirst(s1, i, run);
      run := [Event(i, Run)] + run;
      assert RunStep(s0, i) == s1;
      RunFirst(s0, i, run);
      run := [Event(i, Run)] + run;
    } else {
      assert RunStep(s0, i) == With(s, i, t.(pc := Idle), strong, weak);
      RunFirst(s0, i, run);
      run := [Event(i, Run)] + run;
    }
  }

  // A promotion that reads a positive mStrong and is not disturbed takes a reference.
  lemma TryEnds(s: State, i: nat, t: Thread, strong: int, weak: int)
      returns (run: seq<Event>)
    requires i < |s.threads| && s.freed == 0 && t.pc.TryRead? && strong > 0
    requires strong + 1 < INITIAL || Total(s.threads[i := t]).first == 0
    ensures OnlyRuns(run, i) && RaceFree(With(s, i, t, strong, weak), run)
    ensures End(With(s, i, t, strong, weak), run)
         == With(s, i, t.(pc := Idle, strong := t.strong + 1), Settled(strong + 1), weak)
  {
    var s0 := With(s, i, t, strong, weak);
    var t1 := t.(pc := AfterTryRead(strong));
    var t2 := t.(pc := FixRead, strong := t.strong + 1);
    TotalAfterPut(s.threads[i := t], i, t2);
    assert s.threads[i := t][i := t2] == s.threads[i := t2];
    run := FixUpEnds(s, i, t2, strong + 1, weak);
    var s1 := With(s, i, t1, strong, weak);
    assert RunStep(s1, i) == With(s, i, t2, strong + 1, weak);
    RunFirst(s1, i, run);
    run := [Event(i, Run)] + run;
    assert RunStep(s0, i) == s1;
    RunFirst(s0, i, run);
    run := [Event(i, Run)] + run;
  }

  /** Promoting a weak reference to a live object succeeds: left alone, the call ends with one strong
      reference more, owned by the thread that made it, and nothing else changed. */
  lemma PromotionSucceeds(s: State, i: nat) returns (run: seq<Event>)
    requires Inv(s) && Enabled(s, i, Promote) && s.strong > 0
    requires s.strong < INITIAL || Total(s.threads).first == 0  // no step is the race
    ensures Solo(run, i, Promote) && RaceFree(s, run)
    ensures var t, s' := s.threads[i], End(s, run);
            && s'.threads == s.threads[i := Thread(Idle, t.strong + 1, t.weak)] && s'.weak == s.weak + 1
            && s'.strong == (if s.strong < INITIAL then s.strong + 1 else s.strong + 1 - INITIAL)
            && s' == s.(threads := s'.threads, weak := s'.weak, strong := s'.strong)
  {
    var t := s.threads[i];
    TotalAfterPut(s.threads, i, t.(pc := TryRead));
    StrongBelow(s);
    run := TryEnds(s, i, t.(pc := TryRead), s.strong, s.weak + 1);
    assert Next(s, i, Promote) == With(s, i, t.(pc := TryRead), s.strong, s.weak + 1);
    StepFirst(s, i, Promote, run);
    run := [Event(i, Promote)] + run;
  }

  lemma StrongBelow(s: State)
    requires Inv(s)
    ensures Total(s.threads).strong <= s.weak < INITIAL
  {
    SumStrongAtMostWeak(Each(s.threads));
  }

  /** Left alone, incStrong ends with one strong reference more; the first one replaces the sentinel. */
  lemma IncStrongEnds(s: State, i: nat) returns (run: seq<Event>)
    requires Inv(s) && Enabled(s, i, IncStrong)
    ensures Solo(run, i, IncStrong) && RaceFree(s, run)
    ensures var t, s' := s.threads[i], End(s, run);
            && s'.threads == s.threads[i := Thread(Idle, t.strong + 1, t.weak)] && s'.weak == s.weak + 1
            && s'.strong == (if s.strong == INITIAL then 1 else s.strong + 1) && s'.raw == (s.raw && i != 0)
            && s'.destroyed == s.destroyed && s'.freed == s.freed && s'.faults == 0
  {
    var t := s.threads[i];
    TotalAfterPut(s.threads, i, t);
    var s1 := Next(s, i, IncStrong);
    var s2 := RunStep(s1, i);
    run := [];
    if s.strong == INITIAL {
      RunFirst(s2, i, run);
      run := [Event(i, Run)] + run;
    }
    RunFirst(s1, i, run);
    run := [Event(i, Run)] + run;
    StepFirst(s, i, IncStrong, run);
    run := [Event(i, IncStrong)] + run;
  }

  // The end of decStrong and of a failed promotion.
  lemma DecWeakSubEnds(s: State, i: nat) returns (run: seq<Event>)
    requires i < |s.threads| && s.threads[i].pc.DecWeakSub? && s.freed == 0 && (s.weak == 1 ==> s.strong != INITIAL)
    ensures OnlyRuns(run, i) && RaceFree(s, run)
    ensures End(s, run) == s.(threads := s.threads[i := s.threads[i].(pc := Idle)], weak := s.weak - 1,
                              freed := if s.weak == 1 then 1 else 0)
  {
    var s1 := RunStep(s, i);
    run := [];
    if s.weak == 1 {
      assert s.threads[i := s1.threads[i]][i := s1.threads[i].(pc := Idle)]
          == s.threads[i := s.threads[i].(pc := Idle)];
      RunFirst(s1, i, run);
      run := [Event(i, Run)] + run;
    }
    RunFirst(s, i, run);
    run := [Event(i, Run)] + run;
  }

  // With nobody but the owner of the last reference left, the sentinel is gone.
  lemma LastOwner(s: State, i: nat)
    requires Inv(s) && i < |s.threads| && s.threads[i].pc == Idle && s.threads[i].strong > 0
    ensures s.freed == 0 && s.destroyed == 0 && s.faults == 0
    ensures s.strong == 1 || s.weak == 1 ==> s.strong < INITIAL
  {
    TotalAfterPut(s.threads, i, s.threads[i]);
    if s.strong >= INITIAL {
      PendingOwnsAnother(s, i);
    }
  }

  /** Left alone, decStrong ends with one strong reference less; dropping the last one destroys the object,
      and when no weak one is left the block is freed. */
  lemma DecStrongEnds(s: State, i: nat) returns (run: seq<Event>)
    requires Inv(s) && Enabled(s, i, DecStrong)
    ensures Solo(run, i, DecStrong) && RaceFree(s, run)
    ensures var t, s' := s.threads[i], End(s, run);
            && s'.threads == s.threads[i := Thread(Idle, t.strong - 1, t.weak)]
            && s'.strong == s.strong - 1 && s'.weak == s.weak - 1 && s'.raw == s.raw && s'.faults == 0
            && s'.destroyed == (if s.strong == 1 then 1 else 0) && s'.freed == (if s.weak == 1 then 1 else 0)
  {
    var t := s.threads[i];
    LastOwner(s, i);
    var s1 := Next(s, i, DecStrong);
    var t2 := t.(strong := t.strong - 1, pc := DecWeakSub);
    var s2 := s1.(threads := s.threads[i := t2], destroyed := if s.strong == 1 then 1 else 0);
    run := DecWeakSubEnds(s2, i);
    assert s.threads[i := t2][i := t2.(pc := Idle)] == s.threads[i := t2.(pc := Idle)];
    if s.strong == 1 {
      assert s1.threads[i := t2] == s.threads[i := t2];
      assert RunStep(s1, i) == s2;
      RunFirst(s1, i, run);
      run := [Event(i, Run)] + run;
    } else {
      assert s1 == s2;
    }
    StepFirst(s, i, DecStrong, run);
    run := [Event(i, DecStrong)] + run;
  }

  /** Left alone, decWeak ends with one weak reference less; dropping the last reference of all frees the
      block, and destroys an object that never had a strong one. */
  lemma DecWeakEnds(s: State, i: nat) returns (run: seq<Event>)
    requires Inv(s) && Enabled(s, i, DecWeak)
    ensures Solo(run, i, DecWeak) && RaceFree(s, run)
    ensures var t, s' := s.threads[i], End(s, run);
            && s'.threads == s.threads[i := Thread(Idle, t.strong, t.weak - 1)]
            && s'.strong == s.strong && s'.weak == s.weak - 1 && s'.raw == s.raw && s'.faults == 0
            && s'.destroyed == (if s.weak == 1 && s.strong == INITIAL then 1 else s.destroyed)
            && s'.freed == (if s.weak == 1 then 1 else 0)
  {
    var t := s.threads[i];
    TotalAfterPut(s.threads, i, t);
    var s1 := Next(s, i, DecWeak);
    run := [];
    if s.weak == 1 {
      if s.strong == INITIAL { NoOwnerNoPending(s); }
      RunFirst(s1, i, run);
      run := [Event(i, Run)] + run;
    }
    StepFirst(s, i, DecWeak, run);
    run := [Event(i, DecWeak)] + run;
  }

  // ------------------------------------------------------------------ the race is real

  // The steps of RaceBreaksTheCount: thread j is the one at line 225.
  lemma RaceThenSettle(s: State, i: nat, j: nat, k: nat)
    requires Inv(s) && Enabled(s, i, Run) && Race(s, i, Run)
    requires Enabled(s, k, Promote) && j < |s.threads| && Of(s.threads[j]).first > 0
    ensures Enabled(Next(s, i, Run), j, Run)
    ensures var bad := Next(Next(s, i, Run), j, Run);
            && bad.strong < 0 && Total(bad.threads).strong >= 2 && bad.destroyed == 0 && bad.weak == s.weak
            && |bad.threads| == |s.threads| && bad.threads[k] == s.threads[k]
  {
    assert ThreadOk(s.threads[i], s.raw, i == 0) && ThreadOk(s.threads[j], s.raw, j == 0);
    SumAtLeastTwo(Each(s.threads), i, j);
    SumStrongAtMostWeak(Each(s.threads));
    var s1 := Next(s, i, Run);
    TotalAfterPut(s.threads, i, s1.threads[i]);
    TotalAfterPut(s1.threads, j, Next(s1, j, Run).threads[j]);
  }

  /** The excluded step is the only way to go wrong, and it always can: from any good state it leads,
      with the other thread's pending subtraction, to a negative mStrong while at least two strong
      references are owned; from then on a promotion fails although the object is alive. */
  lemma RaceBreaksTheCount(s: State, i: nat, k: nat)
    requires Inv(s) && Enabled(s, i, Run) && Race(s, i, Run)
    requires Enabled(s, k, Promote)
    ensures exists j: nat :: (
      && Enabled(Next(s, i, Run), j, Run)
      && var bad := Next(Next(s, i, Run), j, Run);
      && bad.strong < 0 && Total(bad.threads).strong >= 2 && bad.destroyed == 0
      && Enabled(bad, k, Promote)
      && Next(Next(bad, k, Promote), k, Run).threads[k].pc == DecWeakSub)
  {
    var j := SumHasFirst(Each(s.threads));
    RaceThenSettle(s, i, j, k);
    var bad := Next(Next(s, i, Run), j, Run);
    assert Enabled(bad, k, Promote);
    PromotionFails(bad, k);
  }

  // With a negative count a promotion gives up.
  lemma PromotionFails(s: State, k: nat)
    requires Enabled(s, k, Promote) && s.strong < 0
    ensures Next(Next(s, k, Promote), k, Run).threads[k].pc == DecWeakSub
  {
    assert Next(s, k, Promote).threads[k].pc == TryRead;
  }

  lemma {:induction false} SumHasFirst(cs: seq<Counts>) returns (i: nat)
    requires Sum(cs).first > 0
    ensures i < |cs| && cs[i].first > 0
  {
    if cs[0].first > 0 {
      i := 0;
    } else {
      var k := SumHasFirst(cs[1..]);
      i := k + 1;
    }
  }

  lemma Prepend(s: State, e: Event, run: seq<Event>)
    requires Enabled(s, e.thread, e.action) && !s.threads[e.thread].pc.FixCas?
    requires RaceFree(Next(s, e.thread, e.action), run)
    ensures RaceFree(s, [e] + run) && End(s, [e] + run) == End(Next(s, e.thread, e.action), run)
  {
    assert ([e] + run)[1..] == run;
  }

  // A state with two threads and nothing reclaimed.
  function Two(strong: int, weak: int, t0: Thread, t1: Thread, raw: bool): State {
    State(strong, weak, [t0, t1], raw, 0, 0, 0)
  }

  // The run of RaceIsReachable from the creator's addition to mStrong on.
  lemma PromoteHalf() returns (run: seq<Event>)
    ensures var s := Two(INITIAL, 2, Thread(IncStrongAdd, 0, 0), Thread(Idle, 0, 1), true);
            && RaceFree(s, run)
            && End(s, run) ==
               Two(INITIAL + 2, 3, Thread(IncStrongFirst, 1, 0), Thread(FixCas(INITIAL + 2), 1, 1), false)
  {
    var t0 := Thread(IncStrongFirst, 1, 0);
    var s3 := Two(INITIAL, 2, Thread(IncStrongAdd, 0, 0), Thread(Idle, 0, 1), true);
    var s4 := Two(INITIAL + 1, 2, t0, Thread(Idle, 0, 1), false);
    var s5 := Two(INITIAL + 1, 3, t0, Thread(TryRead, 0, 1), false);
    var s6 := Two(INITIAL + 1, 3, t0, Thread(TryCas(INITIAL + 1), 0, 1), false);
    var s7 := Two(INITIAL + 2, 3, t0, Thread(FixRead, 1, 1), false);
    run := [];
    Prepend(s7, Event(1, Run), run); run := [Event(1, Run)] + run;
    assert Next(s6, 1, Run) == s7;
    Prepend(s6, Event(1, Run), run); run := [Event(1, Run)] + run;
    assert Next(s5, 1, Run) == s6;
    Prepend(s5, Event(1, Run), run); run := [Event(1, Run)] + run;
    assert Next(s4, 1, Promote) == s5;
    Prepend(s4, Event(1, Promote), run); run := [Event(1, Promote)] + run;
    assert Next(s3, 0, Run) == s4;
    Prepend(s3, Event(0, Run), run); run := [Event(0, Run)] + run;
  }

  /** A run with two threads that reaches it: the creator hands out a weak reference and takes its
      first strong one; the other thread promotes before line 225 has run. */
  lemma RaceIsReachable() returns (run: seq<Event>)
    ensures RaceFree(Initial(2), run)
    ensures var s := End(Initial(2), run); Enabled(s, 1, Run) && Race(s, 1, Run)
  {
    run := PromoteHalf();
    var idle := Thread(Idle, 0, 0);
    var s0 := Two(INITIAL, 0, idle, idle, true);
    var s1 := Two(INITIAL, 1, Thread(Idle, 0, 1), idle, true);
    var s2 := Two(INITIAL, 1, idle, Thread(Idle, 0, 1), true);
    var s3 := Two(INITIAL, 2, Thread(IncStrongAdd, 0, 0), Thread(Idle, 0, 1), true);
    assert Next(s2, 0, IncStrong) == s3;
    Prepend(s2, Event(0, IncStrong), run); run := [Event(0, IncStrong)] + run;
    assert Next(s1, 0, GiveWeak(1)) == s2;
    Prepend(s1, Event(0, GiveWeak(1)), run); run := [Event(0, GiveWeak(1))] + run;
    assert Next(s0, 0, CreateWeak) == s1;
    Prepend(s0, Event(0, CreateWeak), run); run := [Event(0, CreateWeak)] + run;
    assert Initial(2) == s0;
    var s := End(Initial(2), run);
    SumAfterPut(Each(s.threads), 0, Of(s.threads[0]));
  }
}

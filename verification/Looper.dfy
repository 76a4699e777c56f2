/** The event queue of ALooper (foundation/ALooper.cpp): a timed scheduler.  Each section under the lock is
    one atomic step; the clock never goes back. */
module Looper {
  import opened Sequences
  import opened StableSort

  datatype Event = Event(whenUs: int, message: nat)

  function Due(): Event -> int { (e: Event) => e.whenUs }

  /** A call of post: when, and with which delay. */
  datatype Posting = Posting(message: nat, atUs: int, delayUs: int)

  /** What a posting is due by: its own time and its delay, if that is positive. */
  function ByDue(): Posting -> int { (p: Posting) => p.atUs + if p.delayUs > 0 then p.delayUs else 0 }

  /** What the looper's thread does between steps: run, wait for a change of the queue, with or without a
      deadline, or nothing more. */
  datatype Thread = Awake | Waiting | WaitingUntil(deadlineUs: int) | Exited

  /** A message taken from the queue, and when. */
  datatype Taken = Taken(event: Event, atUs: int)

  /** `posted` and `taken` record everything posted and dequeued so far. */
  datatype State = State(nowUs: int, queue: seq<Event>, running: bool, thread: Thread,
                         posted: seq<Posting>, taken: seq<Taken>)

  function Events(taken: seq<Taken>): (es: seq<Event>)
    ensures |es| == |taken|
    ensures forall i :: 0 <= i < |es| ==> es[i] == taken[i].event
  {
    seq(|taken|, i requires 0 <= i < |taken| => taken[i].event)
  }

  datatype Action = Tick(nowUs: int) | Post(message: nat, delayUs: int) | Loop | Wake | Stop

  predicate Enabled(s: State, a: Action) {
    match a
    case Tick(nowUs) => nowUs >= s.nowUs
    case Post(_, _) => true
    case Loop => s.thread == Awake
    case Wake => s.thread == Waiting || s.thread.WaitingUntil?  // a timeout, or for no reason
    case Stop => true
  }

  function WhenUs(nowUs: int, delayUs: int): int { if delayUs > 0 then nowUs + delayUs else nowUs }

  // mQueueChangedCondition.signal()
  function Signalled(t: Thread): Thread { if t == Exited then t else Awake }

  function PostEvent(s: State, message: nat, delayUs: int): State {
    var e := Event(WhenUs(s.nowUs, delayUs), message);
    State(s.nowUs, Insert(s.queue, e, Due()), s.running,
          if s.queue == [] || s.queue[0].whenUs > e.whenUs then Signalled(s.thread) else s.thread,
          s.posted + [Posting(message, s.nowUs, delayUs)], s.taken)
  }

  /** One call of loop, up to the delivery of the message it takes. */
  function LoopOnce(s: State): State {
    if !s.running then s.(thread := Exited)
    else if s.queue == [] then s.(thread := Waiting)
    else if s.queue[0].whenUs > s.nowUs then s.(thread := WaitingUntil(s.nowUs + (s.queue[0].whenUs - s.nowUs)))
    else s.(queue := s.queue[1..], taken := s.taken + [Taken(s.queue[0], s.nowUs)])
  }

  function Next(s: State, a: Action): State
    requires Enabled(s, a)
  {
    match a
    case Tick(nowUs) => s.(nowUs := nowUs)
    case Post(message, delayUs) => PostEvent(s, message, delayUs)
    case Loop => LoopOnce(s)
    case Wake => s.(thread := Awake)
    case Stop => s.(running := false, thread := Signalled(s.thread))
  }

  // Postings as they are queued.
  function Scheduled(ps: seq<Posting>): (es: seq<Event>)
    ensures |es| == |ps| && forall i :: 0 <= i < |es| ==> es[i] == Event(ByDue()(ps[i]), ps[i].message)
  {
    seq(|ps|, i requires 0 <= i < |ps| => Event(ByDue()(ps[i]), ps[i].message))
  }

  /** The messages taken, followed by those queued, are the stable sort by due time of all postings; none
      was taken before it was due; a sleeping thread has nothing to do until its deadline, and none sleeps
      once the looper was stopped. */
  ghost predicate Inv(s: State) {
    && Events(s.taken) + s.queue == Scheduled(Sort(s.posted, ByDue()))
    && (forall i :: 0 <= i < |s.taken| ==> s.taken[i].event.whenUs <= s.taken[i].atUs <= s.nowUs)
    && (s.thread == Waiting ==> s.queue == [] && s.running)
    && (s.thread.WaitingUntil? ==> s.queue != [] && s.thread.deadlineUs == s.queue[0].whenUs && s.running)
    && (s.thread == Exited ==> !s.running)
  }

  // Inserting behind a prefix that is not later.
  lemma {:induction false} InsertBehind(a: seq<Event>, b: seq<Event>, e: Event)
    requires forall i :: 0 <= i < |a| ==> a[i].whenUs <= e.whenUs
    ensures Insert(a + b, e, Due()) == a + Insert(b, e, Due())
  {
    if b == [] {
      assert a + b == a;
    } else if b[|b| - 1].whenUs > e.whenUs {
      var init := b[..|b| - 1];
      InsertBehind(a, init, e);
      assert (a + b)[..|a + b| - 1] == a + init;
      Associative(a, Insert(init, e, Due()), [b[|b| - 1]]);
    } else {
      Associative(a, b, [e]);
    }
  }

  // The head of the queue after an insertion.
  lemma {:induction false} InsertHead(s: seq<Event>, e: Event)
    requires SortedBy(s, Due())
    ensures Insert(s, e, Due()) != []
    ensures s != [] && s[0].whenUs <= e.whenUs ==> Insert(s, e, Due())[0] == s[0]
  {
    if s != [] && s[|s| - 1].whenUs > e.whenUs {
      InsertHead(s[..|s| - 1], e);
    }
  }

  // Inserting a posting and then scheduling all is scheduling all and then inserting.
  lemma {:induction false} ScheduledInsert(ps: seq<Posting>, p: Posting)
    ensures Scheduled(Insert(ps, p, ByDue())) == Insert(Scheduled(ps), Event(ByDue()(p), p.message), Due())
  {
    var e := Event(ByDue()(p), p.message);
    if ps == [] || ByDue()(ps[|ps| - 1]) <= ByDue()(p) {
      assert Scheduled(ps + [p]) == Scheduled(ps) + [e];
    } else {
      var init, last := ps[..|ps| - 1], ps[|ps| - 1];
      ScheduledInsert(init, p);
      assert Scheduled(ps)[..|ps| - 1] == Scheduled(init);
      var more := Insert(init, p, ByDue());
      assert Scheduled(more + [last]) == Scheduled(more) + [Scheduled(ps)[|ps| - 1]];
    }
  }

  lemma {:induction false} PostKeepsInv(s: State, message: nat, delayUs: int)
    requires Inv(s)
    ensures Inv(PostEvent(s, message, delayUs))
  {
    var p := Posting(message, s.nowUs, delayUs);
    var e := Event(ByDue()(p), message);
    PostScheduled(s, p, e);
    QueueSorted(s);
    InsertHead(s.queue, e);
  }

  lemma PostScheduled(s: State, p: Posting, e: Event)
    requires Inv(s) && e == Event(ByDue()(p), p.message) && e.whenUs >= s.nowUs
    ensures Events(s.taken) + Insert(s.queue, e, Due()) == Scheduled(Sort(s.posted + [p], ByDue()))
  {
    assert (s.posted + [p])[..|s.posted|] == s.posted;
    ScheduledInsert(Sort(s.posted, ByDue()), p);
    InsertBehind(Events(s.taken), s.queue, e);
  }

  lemma {:induction false} QueueSorted(s: State)
    requires Inv(s)
    ensures SortedBy(s.queue, Due())
  {
    var ps := Sort(s.posted, ByDue());
    SortIsSorted(s.posted, ByDue());
    var all := Events(s.taken) + s.queue;
    forall i, j | 0 <= i < j < |s.queue| ensures s.queue[i].whenUs <= s.queue[j].whenUs {
      assert all[|s.taken| + i] == s.queue[i] && all[|s.taken| + j] == s.queue[j];
      assert ByDue()(ps[|s.taken| + i]) <= ByDue()(ps[|s.taken| + j]);
    }
  }

  lemma {:induction false} LoopKeepsInv(s: State)
    requires Inv(s) && s.thread == Awake
    ensures Inv(LoopOnce(s))
  {
    var s' := LoopOnce(s);
    if s'.taken != s.taken {
      assert Events(s'.taken) == Events(s.taken) + [s.queue[0]];
      assert s.queue == [s.queue[0]] + s.queue[1..];
      Associative(Events(s.taken), [s.queue[0]], s.queue[1..]);
    }
  }

  lemma {:induction false} StepKeepsInv(s: State, a: Action)
    requires Inv(s) && Enabled(s, a)
    ensures Inv(Next(s, a))
  {
    match a
    case Post(message, delayUs) => PostKeepsInv(s, message, delayUs);
    case Loop => LoopKeepsInv(s);
    case _ =>
  }

  predicate Run(s: State, actions: seq<Action>, s': State)
    decreases actions
  {
    if actions == [] then s' == s
    else Enabled(s, actions[0]) && Run(Next(s, actions[0]), actions[1..], s')
  }

  predicate Initial(s: State) {
    s.queue == [] && s.posted == [] && s.taken == [] && s.thread == Awake && s.running
  }

  /** Over every run: what was taken and what is queued. */
  lemma {:induction false} EveryRunInOrder(s: State, actions: seq<Action>, s': State)
    requires Inv(s) && Run(s, actions, s')
    ensures Inv(s')
    decreases actions
  {
    if actions != [] {
      StepKeepsInv(s, actions[0]);
      EveryRunInOrder(Next(s, actions[0]), actions[1..], s');
    }
  }

  lemma InitialInv(s: State)
    requires Initial(s)
    ensures Inv(s)
  {
    assert Events(s.taken) + s.queue == [];
  }

  /** The postings in the order they are due: whatever was posted is there once, and postings due at the
      same time stay in the order they were made.  The first of them are those taken, each no sooner than
      its own time and delay allow; the others are queued. */
  lemma {:induction false} TakenWhenDue(s: State, actions: seq<Action>, s': State)
    requires Initial(s) && Run(s, actions, s')
    ensures var ps := Sort(s'.posted, ByDue());
            && |ps| == |s'.taken| + |s'.queue| && multiset(ps) == multiset(s'.posted)
            && (forall i, j :: 0 <= i < j < |ps| ==>
                  ps[i].atUs + (if ps[i].delayUs > 0 then ps[i].delayUs else 0)
                  <= ps[j].atUs + if ps[j].delayUs > 0 then ps[j].delayUs else 0)
            && (forall k :: WithKey(ps, ByDue(), k) == WithKey(s'.posted, ByDue(), k))
            && (forall i :: 0 <= i < |s'.taken| ==>
                  && s'.taken[i].event.message == ps[i].message
                  && s'.taken[i].atUs >= ps[i].atUs + if ps[i].delayUs > 0 then ps[i].delayUs else 0)
            && (forall i :: 0 <= i < |s'.queue| ==> s'.queue[i].message == ps[|s'.taken| + i].message)
  {
    InitialInv(s);
    EveryRunInOrder(s, actions, s');
    SortIsPermutation(s'.posted, ByDue());
    SortIsSorted(s'.posted, ByDue());
    forall k ensures WithKey(Sort(s'.posted, ByDue()), ByDue(), k) == WithKey(s'.posted, ByDue(), k) {
      SortIsStable(s'.posted, ByDue(), k);
    }
    OrderOfPostings(s');
  }

  // Position by position.
  lemma OrderOfPostings(s: State)
    requires Inv(s)
    ensures var ps := Sort(s.posted, ByDue());
            && |ps| == |s.taken| + |s.queue|
            && (forall i :: 0 <= i < |s.taken| ==> s.taken[i].event == Event(ByDue()(ps[i]), ps[i].message))
            && (forall i :: 0 <= i < |s.queue| ==>
                  s.queue[i] == Event(ByDue()(ps[|s.taken| + i]), ps[|s.taken| + i].message))
  {
    var ps := Sort(s.posted, ByDue());
    PartsOf(Events(s.taken), s.queue, Scheduled(ps));
  }

  lemma PartsOf<T>(a: seq<T>, b: seq<T>, all: seq<T>)
    requires a + b == all
    ensures |all| == |a| + |b|
    ensures forall i :: 0 <= i < |a| ==> a[i] == all[i]
    ensures forall i :: 0 <= i < |b| ==> b[i] == all[|a| + i]
  {}

  /** A sleeping thread wakes for the posting that is due first of those not taken yet; without a deadline
      it sleeps only when all were taken, and never after the looper was stopped. */
  lemma {:induction false} NoOversleep(s: State, actions: seq<Action>, s': State)
    requires Initial(s) && Run(s, actions, s')
    ensures s'.thread == Waiting ==> |s'.taken| == |s'.posted| && s'.running
    ensures s'.thread.WaitingUntil? ==>
              var ps := Sort(s'.posted, ByDue());
              && s'.running && |s'.taken| < |ps|
              && s'.thread.deadlineUs == ps[|s'.taken|].atUs
                   + (if ps[|s'.taken|].delayUs > 0 then ps[|s'.taken|].delayUs else 0)
              && forall i :: |s'.taken| <= i < |ps| ==>
                   s'.thread.deadlineUs <= ps[i].atUs + if ps[i].delayUs > 0 then ps[i].delayUs else 0
  {
    InitialInv(s);
    EveryRunInOrder(s, actions, s');
    SortSize(s'.posted, ByDue());
    SortIsSorted(s'.posted, ByDue());
    OrderOfPostings(s');
  }

  /** A running loop takes the posting that is due first of those not taken yet, if its time has come;
      otherwise it goes to sleep and takes nothing. */
  lemma {:induction false} LoopTakesDue(s: State, actions: seq<Action>, s': State)
    requires Initial(s) && Run(s, actions, s') && s'.thread == Awake && s'.running
    ensures var ps, next, n := Sort(s'.posted, ByDue()), Next(s', Loop), |s'.taken|;
            if n < |ps| && ps[n].atUs + (if ps[n].delayUs > 0 then ps[n].delayUs else 0) <= s'.nowUs then
              && |next.taken| == n + 1 && next.taken[..n] == s'.taken && next.thread == Awake
              && next.taken[n].event.message == ps[n].message && next.taken[n].atUs == s'.nowUs
            else next.taken == s'.taken && next.thread != Awake && next.thread != Exited
  {
    InitialInv(s);
    EveryRunInOrder(s, actions, s');
    OrderOfPostings(s');
  }

  // ------------------------------------------------------------------ the looper

  class ALooper {
    var queue: seq<Event>    // mEventQueue
    var running: bool        // mThread != NULL || mRunningLocally
    var thread: Thread       // where the looper's thread is
    ghost var posted: seq<Posting>
    ghost var taken: seq<Taken>

    ghost function St(nowUs: int): State
      reads this
    {
      State(nowUs, queue, running, thread, posted, taken)
    }

    constructor ()
      ensures forall now :: Initial(St(now))
    {
      queue, running, thread, posted, taken := [], true, Awake, [], [];
    }

    /** post, at time `nowUs`. */
    method PostMessage(message: nat, delayUs: int, nowUs: int)
      requires SortedBy(queue, Due())
      modifies this
      ensures St(nowUs) == Next(old(St(nowUs)), Post(message, delayUs))
    {
      var whenUs := if delayUs > 0 then nowUs + delayUs else nowUs;
      var it := 0;
      while it < |queue| && queue[it].whenUs <= whenUs
        invariant 0 <= it <= |queue| && forall k :: 0 <= k < it ==> queue[k].whenUs <= whenUs
      {
        it := it + 1;
      }
      var event := Event(whenUs, message);
      if it == 0 && thread != Exited {
        thread := Awake;  // mQueueChangedCondition.signal()
      }
      InsertAt(queue, event, Due(), it);
      queue := queue[..it] + [event] + queue[it..];
      posted := posted + [Posting(message, nowUs, delayUs)];
    }

    /** loop, at time `nowUs`: whether it wants to be called again, and the message to deliver. */
    method LoopStep(nowUs: int) returns (again: bool, event: seq<Event>)
      requires thread == Awake
      modifies this
      ensures St(nowUs) == Next(old(St(nowUs)), Loop)
      ensures again == old(running)
      ensures taken == old(taken) + if event == [] then [] else [Taken(event[0], nowUs)]
      ensures |event| <= 1
    {
      if !running {
        thread := Exited;
        return false, [];
      }
      if queue == [] {
        thread := Waiting;
        return true, [];
      }
      var whenUs := queue[0].whenUs;
      if whenUs > nowUs {
        thread := WaitingUntil(nowUs + (whenUs - nowUs));
        return true, [];
      }
      event := [queue[0]];
      taken := taken + [Taken(queue[0], nowUs)];
      queue := queue[1..];
      again := true;
    }

    /** stop. */
    method StopLooper(nowUs: int)
      modifies this
      ensures St(nowUs) == Next(old(St(nowUs)), Stop)
    {
      running := false;
      if thread != Exited {
        thread := Awake;
      }
    }
  }
}

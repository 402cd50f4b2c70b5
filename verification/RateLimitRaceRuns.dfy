/**
  The bound on races is met: for every number of handlers and every limit, some schedule on a
  clock that does not go back records limit + (k - 1) * (k + 2) requests inside one window.

  The schedule has k rounds.  In each, all k handlers see one expired head; the first pops it and
  the other k - 1 then each pop an entry that has only just been recorded.  Handlers that started
  before the window supply the expired head of the next round.
*/
module RateLimitRaceRuns {
  import opened RateLimit
  import opened RateLimitThreads
  import opened RateLimitHistory
  import opened RateLimitRaces

  datatype Race = Race(k: nat, window: Time, limit: int)

  predicate Valid(c: Race) {
    c.k > 0 && c.window > 0.0 && c.limit > 0
  }

  /** Some schedule leads to s, its calls no later than t, with n requests recorded in the window that ends at time
      0. */
  ghost predicate Reach(c: Race, s: Shared, t: Time, n: nat) {
    exists schedule :: Leads(c, schedule, s, t, n)
  }

  /** Every handler goes on from its call. */
  predicate NoneLeaves(schedule: seq<Action>) {
    forall i :: 0 <= i < |schedule| ==> !schedule[i].Leave?
  }

  predicate Leads(c: Race, schedule: seq<Action>, s: Shared, t: Time, n: nat) {
    && Execute(Start(c.k), schedule, c.window, c.limit) == s
    && ClockForward(schedule) && !CallsAfter(schedule, t) && NoneLeaves(schedule)
    && CountIn(Log(Start(c.k), schedule, c.window, c.limit), -c.window, 0.0) == n
  }

  // ----- Single steps -----

  lemma {:induction false} ReachStart(c: Race, t: Time)
    ensures Reach(c, Start(c.k), t, 0)
  {
    assert Leads(c, [], Start(c.k), t, 0);
  }

  lemma {:induction false} CallsAfterLater(schedule: seq<Action>, t: Time, later: Time)
    requires !CallsAfter(schedule, t) && t <= later
    ensures !CallsAfter(schedule, later)
  {
    if schedule != [] {
      CallsAfterLater(schedule[..|schedule| - 1], t, later);
    }
  }

  lemma {:induction false} ReachAct(c: Race, s: Shared, t: Time, n: nat, a: Action, later: Time)
    requires Reach(c, s, t, n) && t <= later && !a.Leave? && (a.Call? ==> a.now == later)
    ensures Reach(c, Act(s, a, c.window, c.limit), later, n + Recorded(s, a, -c.window, 0.0))
  {
    var schedule :| Leads(c, schedule, s, t, n);
    var longer := schedule + [a];
    assert longer[..|schedule|] == schedule;
    CallsAfterLater(schedule, t, later);
    assert Leads(c, longer, Act(s, a, c.window, c.limit), later, n + Recorded(s, a, -c.window, 0.0));
  }

  function Put(s: Shared, i: nat, h: Handler): Shared
    requires i < |s.handlers|
  {
    s.(handlers := s.handlers[i := h])
  }

  lemma {:induction false} ReachCall(c: Race, s: Shared, t: Time, n: nat, i: nat, now: Time)
    requires Reach(c, s, t, n) && t <= now && i < |s.handlers| && Resting(s.handlers[i])
    ensures Reach(c, Put(s, i, TestEmpty(now)), now, n)
  {
    ReachAct(c, s, t, n, Call(i, now), now);
  }

  lemma {:induction false} ReachMove(c: Race, s: Shared, t: Time, n: nat, i: nat)
    requires Reach(c, s, t, n) && i < |s.handlers|
    ensures var (deque, h) := Operation(s.deque, s.handlers[i], c.window, c.limit);
            Reach(c, Shared(deque, s.handlers[i := h]), t, n + Recorded(s, Move(i), -c.window, 0.0))
  {
    ReachAct(c, s, t, n, Move(i), t);
  }

  // ----- What one handler does -----

  /** A handler with nothing to pop and room to append is about to append. */
  lemma {:induction false} ReachAppend(c: Race, s: Shared, t: Time, n: nat, i: nat)
    requires Reach(c, s, t, n) && i < |s.handlers| && s.handlers[i].TestEmpty? && |s.deque| < c.limit
    requires s.deque != [] ==> s.deque[0] > s.handlers[i].now - c.window
    ensures Reach(c, Put(s, i, Append(s.handlers[i].now)), t, n)
  {
    var now := s.handlers[i].now;
    ReachMove(c, s, t, n, i);
    if s.deque != [] {
      var s1 := Put(s, i, TestHead(now));
      ReachMove(c, s1, t, n, i);
      assert Put(s1, i, TestLength(now)) == Put(s, i, TestLength(now));
    }
    var s2 := Put(s, i, TestLength(now));
    ReachMove(c, s2, t, n, i);
    assert Put(s2, i, Append(now)) == Put(s, i, Append(now));
  }

  lemma {:induction false} ReachAppended(c: Race, s: Shared, t: Time, n: nat, i: nat)
    requires Reach(c, s, t, n) && i < |s.handlers| && s.handlers[i].Append?
    ensures var now := s.handlers[i].now;
            Reach(c, Shared(s.deque + [now], s.handlers[i := Returned(true)]), t,
                  n + if -c.window < now <= 0.0 then 1 else 0)
  {
    ReachMove(c, s, t, n, i);
  }

  lemma {:induction false} ReachPopped(c: Race, s: Shared, t: Time, n: nat, i: nat)
    requires Reach(c, s, t, n) && i < |s.handlers| && s.handlers[i].PopHead? && s.deque != []
    ensures Reach(c, Shared(s.deque[1..], s.handlers[i := TestEmpty(s.handlers[i].now)]), t, n)
  {
    ReachMove(c, s, t, n, i);
  }

  /** A handler that sees an expired head is about to pop. */
  lemma {:induction false} ReachPop(c: Race, s: Shared, t: Time, n: nat, i: nat)
    requires Reach(c, s, t, n) && i < |s.handlers| && s.handlers[i].TestEmpty?
    requires s.deque != [] && s.deque[0] <= s.handlers[i].now - c.window
    ensures Reach(c, Put(s, i, PopHead(s.handlers[i].now)), t, n)
  {
    var now := s.handlers[i].now;
    ReachMove(c, s, t, n, i);
    var s1 := Put(s, i, TestHead(now));
    ReachMove(c, s1, t, n, i);
    assert Put(s1, i, PopHead(now)) == Put(s, i, PopHead(now));
  }

  /** A request at time 0 is recorded, and its handler called again. */
  lemma {:induction false} ReachAgain(c: Race, s: Shared, n: nat, i: nat)
    requires Valid(c) && Reach(c, s, 0.0, n) && i < |s.handlers| && s.handlers[i] == TestEmpty(0.0)
             && |s.deque| < c.limit
    requires s.deque != [] ==> s.deque[0] == 0.0
    ensures Reach(c, Shared(s.deque + [0.0], s.handlers), 0.0, n + 1)
  {
    ReachAppend(c, s, 0.0, n, i);
    var s1 := Put(s, i, Append(0.0));
    ReachAppended(c, s1, 0.0, n, i);
    var s2 := Shared(s.deque + [0.0], s1.handlers[i := Returned(true)]);
    ReachCall(c, s2, 0.0, n + 1, i, 0.0);
    assert Put(s2, i, TestEmpty(0.0)) == Shared(s.deque + [0.0], s.handlers);
  }

  // ----- The rounds -----

  /** The j-th instant before time 0, one window apart. */
  function Past(c: Race, j: nat): Time {
    if j == 0 then 0.0 else Past(c, j - 1) - c.window
  }

  lemma {:induction false} PastOrder(c: Race, i: nat, j: nat)
    requires Valid(c) && i <= j
    ensures Past(c, j) <= Past(c, i)
    ensures i < j ==> Past(c, j) <= Past(c, i) - c.window
  {
    if i < j {
      PastOrder(c, i, j - 1);
    }
  }

  /** When handler i was called, as of the round whose expired head is from instant j. */
  function CallTime(c: Race, j: nat, i: nat): Time
    requires j <= c.k && i < c.k
  {
    Past(c, if i > c.k - j then c.k - i else 0)
  }

  /** The first m handlers about to pop, the others at the start of their loop. */
  function Row(c: Race, j: nat, m: nat): (r: seq<Handler>)
    requires j <= c.k
    ensures |r| == c.k
  {
    seq(c.k, i requires 0 <= i < c.k => if i < m then PopHead(CallTime(c, j, i)) else TestEmpty(CallTime(c, j, i)))
  }

  /** A round begins: the head is from instant j, and every handler has seen it expired. */
  function RoundStart(c: Race, j: nat): Shared
    requires j <= c.k
  {
    Shared([Past(c, j)], Row(c, j, c.k))
  }

  /** The first m handlers have popped. */
  function Popped(c: Race, j: nat, m: nat): seq<Handler>
    requires j <= c.k
  {
    seq(c.k, i requires 0 <= i < c.k => if i < m then TestEmpty(CallTime(c, j, i)) else PopHead(CallTime(c, j, i)))
  }

  /** Handler 0 records one more, and handler m pops it. */
  lemma {:induction false} StalePop(c: Race, j: nat, n: nat, m: nat)
    requires Valid(c) && 1 <= j <= c.k && 1 <= m < c.k
    requires Reach(c, Shared([], Popped(c, j, m)), 0.0, n)
    ensures Reach(c, Shared([], Popped(c, j, m + 1)), 0.0, n + 1)
  {
    var handlers := Popped(c, j, m);
    ReachAgain(c, Shared([], handlers), n, 0);
    assert [] + [0.0] == [0.0];
    ReachPopped(c, Shared([0.0], handlers), 0.0, n + 1, m);
    assert [0.0][1..] == [];
    assert handlers[m := TestEmpty(CallTime(c, j, m))] == Popped(c, j, m + 1);
  }

  /** The others each pop what handler 0 has just recorded. */
  lemma {:induction false} RoundPops(c: Race, j: nat, n: nat, m: nat)
    requires Valid(c) && 1 <= j <= c.k && 1 <= m <= c.k
    requires Reach(c, RoundStart(c, j), 0.0, n)
    ensures Reach(c, Shared([], Popped(c, j, m)), 0.0, n + m - 1)
  {
    if m == 1 {
      ReachPopped(c, RoundStart(c, j), 0.0, n, 0);
      assert [Past(c, j)][1..] == [];
      assert Row(c, j, c.k)[0 := TestEmpty(CallTime(c, j, 0))] == Popped(c, j, 1);
    } else {
      RoundPops(c, j, n, m - 1);
      StalePop(c, j, n + m - 2, m - 1);
    }
  }

  /** The first m handlers see the next round's head. */
  lemma {:induction false} RoundSees(c: Race, j: nat, n: nat, m: nat)
    requires Valid(c) && 1 <= j <= c.k && m <= c.k
    requires Reach(c, Shared([Past(c, j)], Row(c, j, 0)), 0.0, n)
    ensures Reach(c, Shared([Past(c, j)], Row(c, j, m)), 0.0, n)
  {
    if m > 0 {
      RoundSees(c, j, n, m - 1);
      var s := Shared([Past(c, j)], Row(c, j, m - 1));
      PastOrder(c, if m - 1 > c.k - j then c.k - (m - 1) else 0, j);
      ReachPop(c, s, 0.0, n, m - 1);
      assert Put(s, m - 1, PopHead(CallTime(c, j, m - 1))) == Shared([Past(c, j)], Row(c, j, m));
    }
  }

  /** A handler from before the window supplies the head of the next round, and is called again. */
  lemma {:induction false} Supply(c: Race, j: nat, n: nat)
    requires Valid(c) && 2 <= j <= c.k
    requires Reach(c, Shared([], Popped(c, j, c.k)), 0.0, n)
    ensures Reach(c, Shared([Past(c, j - 1)], Row(c, j - 1, 0)), 0.0, n)
  {
    var o, head := c.k - j + 1, Past(c, j - 1);
    var s := Shared([], Popped(c, j, c.k));
    ReachAppend(c, s, 0.0, n, o);
    var s1 := Put(s, o, Append(head));
    ReachAppended(c, s1, 0.0, n, o);
    PastOrder(c, 0, j - 1);
    var s2 := Shared([] + [head], s1.handlers[o := Returned(true)]);
    ReachCall(c, s2, 0.0, n, o, 0.0);
    assert Put(s2, o, TestEmpty(0.0)).handlers == Row(c, j - 1, 0);
    assert Put(s2, o, TestEmpty(0.0)) == Shared([head], Row(c, j - 1, 0));
  }

  lemma {:induction false} NextRound(c: Race, j: nat, n: nat)
    requires Valid(c) && 2 <= j <= c.k
    requires Reach(c, RoundStart(c, j), 0.0, n)
    ensures Reach(c, RoundStart(c, j - 1), 0.0, n + c.k - 1)
  {
    RoundPops(c, j, n, c.k);
    Supply(c, j, n + c.k - 1);
    RoundSees(c, j - 1, n + c.k - 1, c.k);
  }

  // ----- Before the first round -----

  /** Handler 0 has recorded the oldest entry; the next m - 1 have seen it expired. */
  function Setup(c: Race, m: nat): Shared {
    Shared([Past(c, c.k)], seq(c.k, i requires 0 <= i < c.k =>
      if i == 0 then Returned(true) else if i < m then PopHead(Past(c, c.k - i)) else Idle))
  }

  lemma {:induction false} ReachSetup(c: Race, m: nat)
    requires Valid(c) && 1 <= m <= c.k
    ensures Reach(c, Setup(c, m), Past(c, c.k - m + 1), 0)
  {
    if m == 1 {
      var t := Past(c, c.k);
      ReachStart(c, t);
      ReachCall(c, Start(c.k), t, 0, 0, t);
      var s := Put(Start(c.k), 0, TestEmpty(t));
      ReachAppend(c, s, t, 0, 0);
      PastOrder(c, 0, c.k);
      ReachAppended(c, Put(s, 0, Append(t)), t, 0, 0);
      assert Shared([] + [t], Put(s, 0, Append(t)).handlers[0 := Returned(true)]) == Setup(c, 1);
    } else {
      var before, t := Past(c, c.k - m + 2), Past(c, c.k - m + 1);
      ReachSetup(c, m - 1);
      PastOrder(c, c.k - m + 1, c.k - m + 2);
      ReachCall(c, Setup(c, m - 1), before, 0, m - 1, t);
      PastOrder(c, c.k - m + 1, c.k);
      ReachPop(c, Put(Setup(c, m - 1), m - 1, TestEmpty(t)), t, 0, m - 1);
      assert Put(Put(Setup(c, m - 1), m - 1, TestEmpty(t)), m - 1, PopHead(t)) == Setup(c, m);
    }
  }

  lemma {:induction false} FirstRound(c: Race)
    requires Valid(c)
    ensures Reach(c, RoundStart(c, c.k), 0.0, 0)
  {
    ReachSetup(c, c.k);
    PastOrder(c, 0, 1);
    ReachCall(c, Setup(c, c.k), Past(c, 1), 0, 0, 0.0);
    var s := Put(Setup(c, c.k), 0, TestEmpty(0.0));
    PastOrder(c, 0, c.k);
    ReachPop(c, s, 0.0, 0, 0);
    assert Put(s, 0, PopHead(0.0)) == RoundStart(c, c.k);
  }

  lemma {:induction false} Rounds(c: Race, r: nat)
    requires Valid(c) && r < c.k
    ensures Reach(c, RoundStart(c, c.k - r), 0.0, OthersTimes(c.k, r))
  {
    if r == 0 {
      FirstRound(c);
    } else {
      Rounds(c, r - 1);
      NextRound(c, c.k - r + 1, OthersTimes(c.k, r - 1));
    }
  }

  // ----- After the last round -----

  /** Handler 0, then those up to m - 1, then the rest. */
  function Led(k: nat, h: Handler, m: nat, done: Handler, todo: Handler): (r: seq<Handler>)
    ensures |r| == k
  {
    seq(k, i requires 0 <= i < k => if i == 0 then h else if i < m then done else todo)
  }

  lemma LedStep(k: nat, h: Handler, m: nat, done: Handler, todo: Handler)
    requires 1 <= m < k
    ensures Led(k, h, m, done, todo)[m := done] == Led(k, h, m + 1, done, todo)
  {
  }

  lemma {:induction false} OneCommits(c: Race, h: Handler, deque: seq<Time>, t: Time, n: nat, m: nat)
    requires Valid(c) && 1 <= m < c.k && |deque| < c.limit && (deque != [] ==> deque[0] == 0.0)
    requires Reach(c, Shared(deque, Led(c.k, h, m, Append(0.0), TestEmpty(0.0))), t, n)
    ensures Reach(c, Shared(deque, Led(c.k, h, m + 1, Append(0.0), TestEmpty(0.0))), t, n)
  {
    ReachAppend(c, Shared(deque, Led(c.k, h, m, Append(0.0), TestEmpty(0.0))), t, n, m);
    LedStep(c.k, h, m, Append(0.0), TestEmpty(0.0));
  }

  /** The others all see room before any of them takes it. */
  lemma {:induction false} OthersCommit(c: Race, h: Handler, deque: seq<Time>, t: Time, n: nat, m: nat)
    requires Valid(c) && 1 <= m <= c.k && |deque| < c.limit && (deque != [] ==> deque[0] == 0.0)
    requires Reach(c, Shared(deque, Led(c.k, h, 1, Append(0.0), TestEmpty(0.0))), t, n)
    ensures Reach(c, Shared(deque, Led(c.k, h, m, Append(0.0), TestEmpty(0.0))), t, n)
  {
    if m > 1 {
      OthersCommit(c, h, deque, t, n, m - 1);
      OneCommits(c, h, deque, t, n, m - 1);
    }
  }

  lemma {:induction false} OneAppends(c: Race, h: Handler, few: nat, t: Time, n: nat, m: nat)
    requires Valid(c) && 1 <= m < c.k
    requires Reach(c, Shared(Zeros(few), Led(c.k, h, m, Returned(true), Append(0.0))), t, n)
    ensures Reach(c, Shared(Zeros(few + 1), Led(c.k, h, m + 1, Returned(true), Append(0.0))), t, n + 1)
  {
    ReachAppended(c, Shared(Zeros(few), Led(c.k, h, m, Returned(true), Append(0.0))), t, n, m);
    LedStep(c.k, h, m, Returned(true), Append(0.0));
    assert Zeros(few) + [0.0] == Zeros(few + 1);
  }

  /** Then they all take it. */
  lemma {:induction false} OthersAppend(c: Race, h: Handler, few: nat, t: Time, n: nat, m: nat)
    requires Valid(c) && 1 <= m <= c.k
    requires Reach(c, Shared(Zeros(few), Led(c.k, h, 1, Returned(true), Append(0.0))), t, n)
    ensures Reach(c, Shared(Zeros(few + m - 1), Led(c.k, h, m, Returned(true), Append(0.0))), t, n + m - 1)
  {
    if m > 1 {
      OthersAppend(c, h, few, t, n, m - 1);
      OneAppends(c, h, few + m - 2, t, n + m - 2, m - 1);
    }
  }

  lemma {:induction false} OthersCalled(c: Race, deque: seq<Time>, n: nat, m: nat)
    requires Valid(c) && 1 <= m <= c.k
    requires Reach(c, Shared(deque, Led(c.k, Returned(true), 1, TestEmpty(0.0), Returned(true))), 0.0, n)
    ensures Reach(c, Shared(deque, Led(c.k, Returned(true), m, TestEmpty(0.0), Returned(true))), 0.0, n)
  {
    if m > 1 {
      OthersCalled(c, deque, n, m - 1);
      ReachCall(c, Shared(deque, Led(c.k, Returned(true), m - 1, TestEmpty(0.0), Returned(true))), 0.0, n, m - 1, 0.0);
      LedStep(c.k, Returned(true), m - 1, TestEmpty(0.0), Returned(true));
    }
  }

  /** A handler called one window later clears the deque. */
  lemma {:induction false} Clear(c: Race, n: nat, left: nat, others: seq<Handler>)
    requires Valid(c) && others != [] && others[0] == TestEmpty(c.window)
    requires Reach(c, Shared(Zeros(left), others), c.window, n)
    ensures Reach(c, Shared([], others), c.window, n)
  {
    if left > 0 {
      var s := Shared(Zeros(left), others);
      ReachPop(c, s, c.window, n, 0);
      ReachPopped(c, Put(s, 0, PopHead(c.window)), c.window, n, 0);
      assert Zeros(left)[1..] == Zeros(left - 1);
      assert Put(s, 0, PopHead(c.window)).handlers[0 := TestEmpty(c.window)] == others;
      Clear(c, n, left - 1, others);
    } else {
      assert Zeros(0) == [];
    }
  }

  /** Handler 0 alone fills the deque. */
  lemma {:induction false} Fill(c: Race, n: nat, m: nat, handlers: seq<Handler>)
    requires Valid(c) && m < c.limit && handlers != [] && handlers[0] == TestEmpty(0.0)
    requires Reach(c, Shared([], handlers), 0.0, n)
    ensures Reach(c, Shared(Zeros(m), handlers), 0.0, n + m)
  {
    if m > 0 {
      Fill(c, n, m - 1, handlers);
      ReachAgain(c, Shared(Zeros(m - 1), handlers), n + m - 1, 0);
      assert Zeros(m - 1) + [0.0] == Zeros(m);
    } else {
      assert Zeros(0) == [];
    }
  }

  lemma {:induction false} LeaderCommits(c: Race, n: nat)
    requires Valid(c) && Reach(c, Shared(Zeros(c.limit - 1), Led(c.k, TestEmpty(0.0), 1, Append(0.0), TestEmpty(0.0))),
                               0.0, n)
    ensures Reach(c, Shared(Zeros(c.limit - 1), Led(c.k, Append(0.0), 1, Append(0.0), TestEmpty(0.0))), 0.0, n)
  {
    var handlers := Led(c.k, TestEmpty(0.0), 1, Append(0.0), TestEmpty(0.0));
    ReachAppend(c, Shared(Zeros(c.limit - 1), handlers), 0.0, n, 0);
    assert handlers[0 := Append(0.0)] == Led(c.k, Append(0.0), 1, Append(0.0), TestEmpty(0.0));
  }

  lemma {:induction false} LeaderAppends(c: Race, n: nat)
    requires Valid(c) && Reach(c, Shared(Zeros(c.limit - 1), Led(c.k, Append(0.0), c.k, Append(0.0), TestEmpty(0.0))),
                               0.0, n)
    ensures Reach(c, Shared(Zeros(c.limit), Led(c.k, Returned(true), 1, Returned(true), Append(0.0))), 0.0, n + 1)
  {
    var handlers := Led(c.k, Append(0.0), c.k, Append(0.0), TestEmpty(0.0));
    ReachAppended(c, Shared(Zeros(c.limit - 1), handlers), 0.0, n, 0);
    assert handlers[0 := Returned(true)] == Led(c.k, Returned(true), 1, Returned(true), Append(0.0));
    assert Zeros(c.limit - 1) + [0.0] == Zeros(c.limit);
  }

  /** k handlers overfill a deque with one free slot. */
  lemma {:induction false} Overfill(c: Race, n: nat)
    requires Valid(c) && Reach(c, Shared(Zeros(c.limit - 1), Led(c.k, TestEmpty(0.0), 1, Append(0.0), TestEmpty(0.0))),
                               0.0, n)
    ensures Reach(c, Shared(Zeros(c.limit + c.k - 1), Led(c.k, Returned(true), 1, TestEmpty(0.0), Returned(true))), 0.0,
                  n + c.k)
  {
    LeaderCommits(c, n);
    OthersCommit(c, Append(0.0), Zeros(c.limit - 1), 0.0, n, c.k);
    LeaderAppends(c, n);
    OthersAppend(c, Returned(true), c.limit, 0.0, n + 1, c.k);
    assert Led(c.k, Returned(true), c.k, Returned(true), Append(0.0))
        == Led(c.k, Returned(true), 1, TestEmpty(0.0), Returned(true));
  }

  /** The others are called in time; then handler 0 is called one window later. */
  lemma {:induction false} LateCall(c: Race, deque: seq<Time>, n: nat)
    requires Valid(c)
    requires Reach(c, Shared(deque, Led(c.k, Returned(true), 1, TestEmpty(0.0), Returned(true))), 0.0, n)
    ensures Reach(c, Shared(deque, Led(c.k, TestEmpty(c.window), 1, Append(0.0), TestEmpty(0.0))), c.window, n)
  {
    OthersCalled(c, deque, n, c.k);
    var handlers := Led(c.k, Returned(true), c.k, TestEmpty(0.0), Returned(true));
    ReachCall(c, Shared(deque, handlers), 0.0, n, 0, c.window);
    assert handlers[0 := TestEmpty(c.window)] == Led(c.k, TestEmpty(c.window), 1, Append(0.0), TestEmpty(0.0));
  }

  lemma {:induction false} OthersRecord(c: Race, h: Handler, t: Time, n: nat) returns (end: Shared)
    requires Valid(c) && Reach(c, Shared([], Led(c.k, h, 1, Append(0.0), TestEmpty(0.0))), t, n)
    ensures Reach(c, end, t, n + c.k - 1)
  {
    OthersCommit(c, h, [], t, n, c.k);
    assert Led(c.k, h, c.k, Append(0.0), TestEmpty(0.0)) == Led(c.k, h, 1, Returned(true), Append(0.0));
    assert Zeros(0) == [];
    OthersAppend(c, h, 0, t, n, c.k);
    end := Shared(Zeros(0 + c.k - 1), Led(c.k, h, c.k, Returned(true), Append(0.0)));
  }

  /** It clears the deque, and the others record once more. */
  lemma {:induction false} Encore(c: Race, n: nat) returns (end: Shared)
    requires Valid(c)
    requires Reach(c, Shared(Zeros(c.limit + c.k - 1), Led(c.k, Returned(true), 1, TestEmpty(0.0), Returned(true))),
                   0.0, n)
    ensures Reach(c, end, c.window, n + c.k - 1)
  {
    LateCall(c, Zeros(c.limit + c.k - 1), n);
    Clear(c, n, c.limit + c.k - 1, Led(c.k, TestEmpty(c.window), 1, Append(0.0), TestEmpty(0.0)));
    end := OthersRecord(c, TestEmpty(c.window), c.window, n);
  }

  lemma {:induction false} LastRound(c: Race)
    requires Valid(c)
    ensures Reach(c, Shared([], Led(c.k, TestEmpty(0.0), 1, Append(0.0), TestEmpty(0.0))), 0.0, OthersTimes(c.k, c.k))
  {
    Rounds(c, c.k - 1);
    RoundPops(c, 1, OthersTimes(c.k, c.k - 1), c.k);
    assert Popped(c, 1, c.k) == Led(c.k, TestEmpty(0.0), 1, Append(0.0), TestEmpty(0.0));
  }

  /** The rounds, and a deque with one free slot. */
  lemma {:induction false} RoundsAndFill(c: Race)
    requires Valid(c)
    ensures Reach(c, Shared(Zeros(c.limit - 1), Led(c.k, TestEmpty(0.0), 1, Append(0.0), TestEmpty(0.0))), 0.0,
                  OthersTimes(c.k, c.k) + c.limit - 1)
  {
    LastRound(c);
    Fill(c, OthersTimes(c.k, c.k), c.limit - 1, Led(c.k, TestEmpty(0.0), 1, Append(0.0), TestEmpty(0.0)));
  }

  /** The last slot taken by all, and once more. */
  lemma {:induction false} OverfillAndEncore(c: Race, n: nat) returns (end: Shared)
    requires Valid(c)
    requires Reach(c, Shared(Zeros(c.limit - 1), Led(c.k, TestEmpty(0.0), 1, Append(0.0), TestEmpty(0.0))), 0.0, n)
    ensures Reach(c, end, c.window, n + c.k + c.k - 1)
  {
    Overfill(c, n);
    end := Encore(c, n + c.k);
  }

  /** Every part of the schedule together. */
  lemma {:induction false} WholeRun(c: Race) returns (end: Shared)
    requires Valid(c)
    ensures Reach(c, end, c.window, OthersTimes(c.k, c.k) + c.limit - 1 + c.k + c.k - 1)
  {
    RoundsAndFill(c);
    end := OverfillAndEncore(c, OthersTimes(c.k, c.k) + c.limit - 1);
  }

  lemma {:induction false} Together(k: nat, limit: nat)
    requires k > 0 && limit > 0
    ensures OthersTimes(k, k) + limit - 1 + k + k - 1 == limit + (k - 1) * (k + 2)
  {
    OthersTimesIs(k, k + 2);
    assert OthersTimes(k, k + 2) == OthersTimes(k, k + 1) + k - 1 == OthersTimes(k, k) + k - 1 + k - 1;
  }

  predicate Meets(schedule: seq<Action>, k: nat, window: Time, limit: int) {
    && ClockForward(schedule) && NoneLeaves(schedule)
    && CountIn(Log(Start(k), schedule, window, limit), -window, 0.0) == limit + (k - 1) * (k + 2)
  }

  /** The bound on races is exact. */
  lemma {:induction false} RaceBoundIsMet(k: nat, window: Time, limit: int) returns (schedule: seq<Action>)
    requires k > 0 && limit > 0 && window > 0.0
    ensures Meets(schedule, k, window, limit)
  {
    var c := Race(k, window, limit);
    var end := WholeRun(c);
    Together(k, limit);
    schedule :| Leads(c, schedule, end, window, OthersTimes(k, k) + limit - 1 + k + k - 1);
  }
}

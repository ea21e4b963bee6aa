/** `timestamp_id_allocator<uint64_t>::allocate`: a lock-free loop over one shared word whose upper half is a time
    in seconds and whose lower half is a sequence number. Any number of threads run the loop, one atomic action at a
    time, in any order. */
module IdAllocator {

  type Thread = nat

  /** Size of one half of the word: `seq_bits` is 32. */
  const HALF: nat := 0x1_0000_0000

  const INITIAL: nat := 255

  function TimePart(word: nat): nat { word / HALF }

  /** `res + 1` on a 64-bit word. */
  function Successor(word: nat): nat { (word + 1) % (HALF * HALF) }

  predicate NeedsClock(res: nat) {
    TimePart(res) == 0 || TimePart(res) != TimePart(Successor(res))
  }

  /** Where a thread stands in the loop. `at` is the number of ids committed by anyone when it loaded the word. */
  datatype Pc =
    | Outside
    | Loaded(res: nat, at: nat)
    | Timed(res: nat, time: nat, at: nat)   // has read a clock value different from the time part of `res`

  datatype Commit = Commit(id: nat, thread: Thread)

  datatype State = State(word: nat, clock: nat, pcs: map<Thread, Pc>, commits: seq<Commit>)

  datatype Action =
    | Tick(to: nat)
    | Load(thread: Thread)
    | ReadClock(thread: Thread)
    | CasStrong(thread: Thread)
    | CasWeak(thread: Thread, spurious: bool)

  function PcOf(s: State, t: Thread): Pc {
    if t in s.pcs then s.pcs[t] else Outside
  }

  /** One atomic action; an action a thread cannot take now changes nothing. The clock never goes back and fits the
      time half. A thread returns an id exactly when it commits one, and is back outside the loop body after a CAS. */
  function Next(s: State, a: Action): State {
    match a
    case Tick(to) => if s.clock <= to < HALF then s.(clock := to) else s
    case Load(t) =>
      if PcOf(s, t).Outside? then s.(pcs := s.pcs[t := Loaded(s.word, |s.commits|)]) else s
    case ReadClock(t) =>
      var pc := PcOf(s, t);
      if pc.Loaded? && NeedsClock(pc.res) && s.clock % HALF != TimePart(pc.res) then
        s.(pcs := s.pcs[t := Timed(pc.res, s.clock % HALF, pc.at)])
      else s
    case CasStrong(t) =>
      var pc := PcOf(s, t);
      if !pc.Timed? then s
      else if s.word != pc.res then s.(pcs := s.pcs[t := Outside])
      else
        var id := pc.time * HALF;
        s.(word := id, pcs := s.pcs[t := Outside],
           commits := if id != 0 then s.commits + [Commit(id, t)] else s.commits)
    case CasWeak(t, spurious) =>
      var pc := PcOf(s, t);
      if !pc.Loaded? || NeedsClock(pc.res) then s
      else if spurious || s.word != pc.res then s.(pcs := s.pcs[t := Outside])
      else
        var id := Successor(pc.res);
        s.(word := id, pcs := s.pcs[t := Outside],
           commits := if id != 0 then s.commits + [Commit(id, t)] else s.commits)
  }

  function Run(s: State, actions: seq<Action>): State
    decreases |actions|
  {
    if actions == [] then s else Run(Next(s, actions[0]), actions[1..])
  }

  function Initial(clock: nat): State { State(INITIAL, clock, map[], []) }

  // ---------------------------------------------------------------- the object

  /** The shared word and the threads running `allocate`; `commits` records every id handed out. */
  class TimestampIdAllocator {
    var seqAlloc: nat
    var clock: nat
    var pcs: map<Thread, Pc>
    var commits: seq<Commit>

    ghost function View(): State
      reads this
    {
      State(seqAlloc, clock, pcs, commits)
    }

    constructor (clock: nat)
      requires clock < HALF
      ensures View() == Initial(clock) && Inv(View())
    {
      seqAlloc, this.clock, pcs, commits := INITIAL, clock, map[], [];
    }

    /** `seq_alloc.load()`, which opens an iteration. */
    method LoadWord(t: Thread)
      requires Inv(View()) && PcOf(View(), t).Outside?
      modifies this
      ensures Inv(View()) && View() == Next(old(View()), Load(t))
    {
      NextKeepsInv(View(), Load(t));
      pcs := pcs[t := Loaded(seqAlloc, |commits|)];
    }

    /** One turn of the inner loop that waits for a time other than the one loaded; `left` when it is over. */
    method Wait(t: Thread) returns (left: bool)
      requires Inv(View()) && PcOf(View(), t).Loaded? && NeedsClock(PcOf(View(), t).res)
      modifies this
      ensures Inv(View()) && View() == Next(old(View()), ReadClock(t))
      ensures left <==> PcOf(View(), t).Timed?
    {
      NextKeepsInv(View(), ReadClock(t));
      var nowTime := clock % HALF;
      left := nowTime != TimePart(pcs[t].res);
      if left {
        pcs := pcs[t := Timed(pcs[t].res, nowTime, pcs[t].at)];
      }
    }

    /** The compare-exchange that moves to a new time; 0 means go round again. */
    method ExchangeTime(t: Thread) returns (ret: nat)
      requires Inv(View()) && PcOf(View(), t).Timed?
      modifies this
      ensures Inv(View()) && View() == Next(old(View()), CasStrong(t))
      ensures commits == if ret != 0 then old(commits) + [Commit(ret, t)] else old(commits)
    {
      NextKeepsInv(View(), CasStrong(t));
      ret := 0;
      var pc := pcs[t];
      pcs := pcs[t := Outside];
      if seqAlloc == pc.res {
        seqAlloc := pc.time * HALF;
        ret := pc.time * HALF;
        if ret != 0 {
          commits := commits + [Commit(ret, t)];
        }
      }
    }

    /** The compare-exchange that takes the next sequence number; it may fail for no reason. */
    method ExchangeSequence(t: Thread, spurious: bool) returns (ret: nat)
      requires Inv(View()) && PcOf(View(), t).Loaded? && !NeedsClock(PcOf(View(), t).res)
      modifies this
      ensures Inv(View()) && View() == Next(old(View()), CasWeak(t, spurious))
      ensures commits == if ret != 0 then old(commits) + [Commit(ret, t)] else old(commits)
    {
      NextKeepsInv(View(), CasWeak(t, spurious));
      ret := 0;
      var pc := pcs[t];
      pcs := pcs[t := Outside];
      if !spurious && seqAlloc == pc.res {
        seqAlloc := Successor(pc.res);
        ret := Successor(pc.res);
        if ret != 0 {
          commits := commits + [Commit(ret, t)];
        }
      }
    }
  }

  // ---------------------------------------------------------------- safety

  /** The word after the first `n` commits. */
  function WordAfter(commits: seq<Commit>, n: nat): nat
    requires n <= |commits|
  {
    if n == 0 then INITIAL else commits[n - 1].id
  }

  ghost predicate Increasing(commits: seq<Commit>) {
    forall i, j :: 0 <= i < j < |commits| ==> commits[i].id < commits[j].id
  }

  ghost predicate PcOk(s: State, t: Thread, pc: Pc) {
    match pc
    case Outside => true
    case Loaded(res, at) =>
      && at <= |s.commits| && res == WordAfter(s.commits, at)
      && forall i :: at <= i < |s.commits| ==> s.commits[i].thread != t
    case Timed(res, time, at) =>
      && at <= |s.commits| && res == WordAfter(s.commits, at)
      && TimePart(res) < time <= s.clock
      && forall i :: at <= i < |s.commits| ==> s.commits[i].thread != t
  }

  ghost predicate Inv(s: State) {
    && s.clock < HALF
    && s.word == WordAfter(s.commits, |s.commits|)
    && TimePart(s.word) <= s.clock
    && (s.commits == [] || TimePart(s.word) > 0)
    && Increasing(s.commits)
    && (forall i :: 0 <= i < |s.commits| ==> INITIAL < s.commits[i].id <= s.word)
    && (forall t :: t in s.pcs ==> PcOk(s, t, s.pcs[t]))
  }

  /** A word loaded before other commits differs from every later one. */
  lemma LoadedWordIsOld(s: State, at: nat)
    requires Inv(s) && at <= |s.commits|
    ensures WordAfter(s.commits, at) == s.word <==> at == |s.commits|
    ensures WordAfter(s.commits, at) <= s.word
  {}

  lemma CommitKeepsInv(s: State, t: Thread, id: nat)
    requires Inv(s) && s.word < id && 0 < TimePart(id) <= s.clock
    ensures Inv(s.(word := id, pcs := s.pcs[t := Outside], commits := s.commits + [Commit(id, t)]))
  {
    var s' := s.(word := id, pcs := s.pcs[t := Outside], commits := s.commits + [Commit(id, t)]);
    forall u | u in s'.pcs ensures PcOk(s', u, s'.pcs[u]) {
      if u != t {
        assert PcOk(s, u, s.pcs[u]);
        assert forall n :: 0 <= n <= |s.commits| ==> WordAfter(s'.commits, n) == WordAfter(s.commits, n);
      }
    }
  }

  /** A thread moves on without a commit. */
  lemma MoveKeepsInv(s: State, t: Thread, pc: Pc)
    requires Inv(s) && PcOk(s, t, pc)
    ensures Inv(s.(pcs := s.pcs[t := pc]))
  {
    var s' := s.(pcs := s.pcs[t := pc]);
    forall u | u in s'.pcs ensures PcOk(s', u, s'.pcs[u]) {
      assert u != t ==> PcOk(s, u, s.pcs[u]);
    }
  }

  lemma ReadClockKeepsInv(s: State, t: Thread)
    requires Inv(s)
    ensures Inv(Next(s, ReadClock(t)))
  {
    var pc := PcOf(s, t);
    if pc.Loaded? && NeedsClock(pc.res) && s.clock % HALF != TimePart(pc.res) {
      assert PcOk(s, t, pc);
      LoadedWordIsOld(s, pc.at);
      assert TimePart(pc.res) <= TimePart(s.word);
      MoveKeepsInv(s, t, Timed(pc.res, s.clock % HALF, pc.at));
    }
  }

  lemma CasKeepsInv(s: State, t: Thread, spurious: bool)
    requires Inv(s)
    ensures Inv(Next(s, CasStrong(t))) && Inv(Next(s, CasWeak(t, spurious)))
  {
    var pc := PcOf(s, t);
    MoveKeepsInv(s, t, Outside);
    assert t in s.pcs ==> PcOk(s, t, pc);
    if pc.Timed? && s.word == pc.res {
      CommitKeepsInv(s, t, pc.time * HALF);
    } else if pc.Loaded? && !NeedsClock(pc.res) && s.word == pc.res {
      assert Successor(pc.res) == pc.res + 1;
      CommitKeepsInv(s, t, Successor(pc.res));
    }
  }

  lemma NextKeepsInv(s: State, a: Action)
    requires Inv(s)
    ensures Inv(Next(s, a))
  {
    match a
    case Tick(to) =>
      if s.clock <= to < HALF {
        forall u | u in s.pcs ensures PcOk(s.(clock := to), u, s.pcs[u]) { assert PcOk(s, u, s.pcs[u]); }
      }
    case Load(t) => MoveKeepsInv(s, t, Loaded(s.word, |s.commits|));
    case ReadClock(t) => ReadClockKeepsInv(s, t);
    case CasStrong(t) => CasKeepsInv(s, t, false);
    case CasWeak(t, spurious) => CasKeepsInv(s, t, spurious);
  }

  lemma {:induction false} RunKeepsInv(s: State, actions: seq<Action>)
    requires Inv(s)
    ensures Inv(Run(s, actions))
    decreases |actions|
  {
    if actions != [] {
      NextKeepsInv(s, actions[0]);
      RunKeepsInv(Next(s, actions[0]), actions[1..]);
    }
  }

  /** Under every interleaving the ids handed out are nonzero 64-bit words, strictly increasing in commit order and
      so pairwise distinct, also where the sequence half has run over into a new time. */
  lemma IdsIncrease(clock: nat, actions: seq<Action>)
    requires clock < HALF
    ensures var ids := Run(Initial(clock), actions).commits;
            && (forall i :: 0 <= i < |ids| ==> 0 < ids[i].id < HALF * HALF)
            && (forall i, j :: 0 <= i < j < |ids| ==> ids[i].id < ids[j].id)
  {
    RunKeepsInv(Initial(clock), actions);
  }

  /** A commit means nobody committed an id since this thread loaded the word: the compare-exchange cannot be fooled by
      a word that went away and came back. */
  lemma CommitMeansUndisturbed(clock: nat, actions: seq<Action>, t: Thread, a: Action)
    requires clock < HALF && (a == CasStrong(t) || exists spurious :: a == CasWeak(t, spurious))
    ensures var s := Run(Initial(clock), actions);
            |Next(s, a).commits| > |s.commits| ==>
              !PcOf(s, t).Outside? && PcOf(s, t).at == |s.commits| && Next(s, a).commits[|s.commits|].thread == t
  {
    RunKeepsInv(Initial(clock), actions);
    var s := Run(Initial(clock), actions);
    var pc := PcOf(s, t);
    if !pc.Outside? {
      assert PcOk(s, t, pc);
      LoadedWordIsOld(s, pc.at);
    }
  }

  /** A compare-exchange of the strong kind that fails means another thread committed an id since the load; one of the
      weak kind fails for that reason or spuriously. */
  lemma FailureMeansOthersProgress(clock: nat, actions: seq<Action>, t: Thread, spurious: bool)
    requires clock < HALF
    ensures var s := Run(Initial(clock), actions);
            var pc := PcOf(s, t);
            && (pc.Timed? && |Next(s, CasStrong(t)).commits| == |s.commits| ==>
                  pc.at < |s.commits| && s.commits[pc.at].thread != t)
            && (pc.Loaded? && !NeedsClock(pc.res) && |Next(s, CasWeak(t, spurious)).commits| == |s.commits| ==>
                  spurious || (pc.at < |s.commits| && s.commits[pc.at].thread != t))
  {
    RunKeepsInv(Initial(clock), actions);
    var s := Run(Initial(clock), actions);
    var pc := PcOf(s, t);
    if !pc.Outside? {
      assert PcOk(s, t, pc);
      LoadedWordIsOld(s, pc.at);
      if pc.Loaded? && !NeedsClock(pc.res) {
        assert Successor(pc.res) == pc.res + 1;
      }
    }
  }

  /** A thread left alone gets an id in one iteration: at once, or after the clock has moved past the loaded time. */
  lemma AloneGetsAnId(clock: nat, actions: seq<Action>, t: Thread, to: nat)
    requires clock < HALF && PcOf(Run(Initial(clock), actions), t).Outside?
    requires var s := Run(Initial(clock), actions); s.clock <= to < HALF && TimePart(s.word) < to
    ensures var s := Run(Initial(clock), actions);
            var loaded := Next(s, Load(t));
            var done := if NeedsClock(s.word) then Next(Next(Next(loaded, Tick(to)), ReadClock(t)), CasStrong(t))
                        else Next(loaded, CasWeak(t, false));
            |done.commits| == |s.commits| + 1
  {
    RunKeepsInv(Initial(clock), actions);
    var s := Run(Initial(clock), actions);
    var loaded := Next(s, Load(t));
    if NeedsClock(s.word) {
      var timed := Next(Next(loaded, Tick(to)), ReadClock(t));
      assert timed.pcs[t] == Timed(s.word, to, |s.commits|);
    } else {
      assert Successor(s.word) != 0;
    }
  }

  /** A nonzero time half with room in the sequence half: the next id is the word plus one, and no clock is read. */
  lemma RoomNeedsNoClock(clock: nat, actions: seq<Action>, t: Thread)
    requires clock < HALF
    requires var s := Run(Initial(clock), actions);
             PcOf(s, t).Outside? && s.word / HALF != 0 && s.word % HALF != HALF - 1
    ensures var s := Run(Initial(clock), actions);
            && Next(Next(s, Load(t)), CasWeak(t, false)).commits == s.commits + [Commit(s.word + 1, t)]
            && Next(Next(s, Load(t)), ReadClock(t)) == Next(s, Load(t))
  {
    RunKeepsInv(Initial(clock), actions);
    var s := Run(Initial(clock), actions);
    assert (s.word + 1) / HALF == s.word / HALF;
  }

  /** No time yet, or no room: no id without the clock, and then the new time with sequence zero. */
  lemma FullNeedsTheClock(clock: nat, actions: seq<Action>, t: Thread, to: nat)
    requires clock < HALF
    requires var s := Run(Initial(clock), actions);
             && PcOf(s, t).Outside? && (s.word / HALF == 0 || s.word % HALF == HALF - 1)
             && s.clock <= to < HALF && s.word / HALF < to
    ensures var s := Run(Initial(clock), actions);
            var loaded := Next(s, Load(t));
            && Next(loaded, CasWeak(t, false)) == loaded
            && Next(Next(Next(loaded, Tick(to)), ReadClock(t)), CasStrong(t)).commits
               == s.commits + [Commit(to * HALF, t)]
  {
    RunKeepsInv(Initial(clock), actions);
    var s := Run(Initial(clock), actions);
    var timed := Next(Next(Next(s, Load(t)), Tick(to)), ReadClock(t));
    assert s.word / HALF != 0 ==> (s.word + 1) / HALF == s.word / HALF + 1;
    assert timed.pcs[t] == Timed(s.word, to, |s.commits|);
  }
}

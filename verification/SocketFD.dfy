/** Lock-free ownership of a socket descriptor (internal/sandbox/socket.go, socketFD).

    A reference count and a descriptor share one 64-bit word; goroutines load it and
    compare-and-swap it.  The model interleaves those steps, and the closeFD calls they
    lead to, in every order. */
module SocketFD {
  import opened Basics

  const HALF: nat := 0x1_0000_0000
  const SIGN: nat := 0x8000_0000

  type Word = w: nat | w < 0x1_0000_0000_0000_0000

  // ----- the word: upper 32 bits count, lower 32 bits descriptor

  function RefCount(w: Word): nat { w / HALF }
  function Low(w: Word): nat { w % HALF }

  /** The lower half read as an int32 is negative: the descriptor was detached by close. */
  predicate Detached(w: Word) { Low(w) >= SIGN }

  function Pack(count: nat, low: nat): (w: Word)
    requires count < HALF && low < HALF
    ensures RefCount(w) == count && Low(w) == low
  {
    count * HALF + low
  }

  /** Shifting the count left by 32 drops what does not fit. */
  function Acquired(w: Word): (r: Word) {
    Pack((RefCount(w) + 1) % HALF, Low(w))
  }
  function Released(w: Word): (r: Word) {
    Pack((RefCount(w) + HALF - 1) % HALF, Low(w))
  }
  function Closed(w: Word): (r: Word) {
    Pack(RefCount(w), HALF - 1)
  }

  /** The shifts and masks of the source, as additions on 64-bit words ... */
  lemma {:induction false} WordBits(w: bv64)
    ensures (((w >> 32) + 1) << 32) | (w & 0xFFFFFFFF) == w + 0x1_0000_0000
    ensures (((w >> 32) - 1) << 32) | (w & 0xFFFFFFFF) == w - 0x1_0000_0000
    ensures w | 0xFFFFFFFF == ((w >> 32) << 32) + 0xFFFFFFFF
  {
  }

  /** ... which the arithmetic above computes. */
  lemma {:induction false} WordArithmetic(w: Word)
    ensures Acquired(w) == (w + HALF) % (HALF * HALF)
    ensures Released(w) == (w + HALF * HALF - HALF) % (HALF * HALF)
    ensures Closed(w) == w - w % HALF + (HALF - 1)
  {
    assert w == RefCount(w) * HALF + Low(w);
  }

  /** Whatever 32-bit number the lower half was written from, it is detached exactly when that is
      negative, and otherwise holds that number. */
  lemma {:induction false} DescriptorIs(count: nat, fd: int)
    requires count < 0x1_0000_0000 && -0x8000_0000 <= fd < 0x8000_0000
    ensures var w := Pack(count, fd % 0x1_0000_0000);
      (Detached(w) <==> fd < 0) && (fd >= 0 ==> Low(w) == fd) && RefCount(w) == count
  {
  }

  // ----- threads

  type Tid = nat

  datatype Pc =
    | Idle
    | AcquireLoad | AcquireCas(seen: Word)
    | Holding(fd: nat)
    | ReleaseLoad(fd: nat) | ReleaseCas(fd: nat, seen: Word)
    | CloseLoad | CloseCas(seen: Word)
    | CallCloseFD(fd: nat)

  predicate Holds(pc: Pc) { pc.Holding? || pc.ReleaseLoad? || pc.ReleaseCas? }

  datatype State = State(word: Word, pcs: map<Tid, Pc>, closes: seq<nat>)

  function Holders(s: State): set<Tid> { set t | t in s.pcs && Holds(s.pcs[t]) }
  function Closers(s: State): set<Tid> { set t | t in s.pcs && s.pcs[t].CallCloseFD? }

  ghost predicate Init(s: State, threads: set<Tid>, fd: nat)
    requires fd < SIGN
  {
    && s.word == Pack(0, fd) && s.closes == []
    && s.pcs.Keys == threads && forall t :: t in threads ==> s.pcs[t] == Idle
  }

  datatype Move = Move(word: Word, pc: Pc, closed: seq<nat>)

  /** What a thread at `pc` does next with the shared word; an idle thread starts an
      acquire or a close. */
  function MoveOf(word: Word, pc: Pc, close: bool): Move {
    match pc
    case Idle => Move(word, if close then CloseLoad else AcquireLoad, [])
    case AcquireLoad => Move(word, if Detached(word) then Idle else AcquireCas(word), [])
    case AcquireCas(seen) =>
      if word == seen then Move(Acquired(seen), Holding(Low(seen)), []) else Move(word, AcquireLoad, [])
    case Holding(fd) => Move(word, ReleaseLoad(fd), [])
    case ReleaseLoad(fd) => Move(word, ReleaseCas(fd, word), [])
    case ReleaseCas(fd, seen) =>
      if word != seen then Move(word, ReleaseLoad(fd), [])
      else Move(Released(seen), if Detached(seen) && RefCount(seen) == 1 then CallCloseFD(fd) else Idle, [])
    case CloseLoad => Move(word, if Detached(word) then Idle else CloseCas(word), [])
    case CloseCas(seen) =>
      if word != seen then Move(word, CloseLoad, [])
      else Move(Closed(seen), if RefCount(seen) == 0 then CallCloseFD(Low(seen)) else Idle, [])
    case CallCloseFD(fd) => Move(word, Idle, [fd])
  }

  function Next(s: State, t: Tid, close: bool): State
    requires t in s.pcs
  {
    var m := MoveOf(s.word, s.pcs[t], close);
    State(m.word, s.pcs[t := m.pc], s.closes + m.closed)
  }

  ghost predicate Step(s: State, s': State) {
    exists t, close :: t in s.pcs && s' == Next(s, t, close)
  }

  ghost predicate Run(run: seq<State>, threads: set<Tid>, fd: nat)
    requires fd < SIGN
  {
    && run != [] && Init(run[0], threads, fd)
    && forall i :: 0 <= i < |run| - 1 ==> Step(run[i], run[i + 1])
  }

  // ----- the invariant

  ghost predicate PcOk(pc: Pc, fd: nat) {
    match pc
    case Holding(f) => f == fd
    case ReleaseLoad(f) => f == fd
    case ReleaseCas(f, _) => f == fd
    case AcquireCas(w) => !Detached(w) && Low(w) == fd
    case CloseCas(w) => !Detached(w) && Low(w) == fd
    case CallCloseFD(f) => f == fd
    case _ => true
  }

  ghost predicate Shape(s: State, threads: set<Tid>, fd: nat) {
    && fd < SIGN && s.pcs.Keys == threads && |threads| <= HALF
    && (!Detached(s.word) ==> Low(s.word) == fd)
    && (forall t :: t in s.pcs ==> PcOk(s.pcs[t], fd))
  }

  /** The count, up to 32 bits, is the number of holders; once detached, the last holder
      leaves exactly one closeFD call made or about to be made. */
  ghost predicate Balance(word: Word, holders: nat, closers: nat, closes: seq<nat>, fd: nat) {
    && RefCount(word) == holders % HALF
    && (if Detached(word) then
          && holders < HALF && (closes == [] || closes == [fd])
          && |closes| + closers == if holders == 0 then 1 else 0
        else
          closes == [] && closers == 0)
  }

  ghost predicate Inv(s: State, threads: set<Tid>, fd: nat) {
    Shape(s, threads, fd) && Balance(s.word, |Holders(s)|, |Closers(s)|, s.closes, fd)
  }

  lemma {:induction false} Moves(s: State, t: Tid, close: bool)
    requires t in s.pcs
    ensures var pc, s' := MoveOf(s.word, s.pcs[t], close).pc, Next(s, t, close);
      && |Holders(s')| == |Holders(s)| + Bit(Holds(pc)) - Bit(Holds(s.pcs[t]))
      && |Closers(s')| == |Closers(s)| + Bit(pc.CallCloseFD?) - Bit(s.pcs[t].CallCloseFD?)
  {
    var pc, s' := MoveOf(s.word, s.pcs[t], close).pc, Next(s, t, close);
    assert Holders(s') - {t} == Holders(s) - {t} && Closers(s') - {t} == Closers(s) - {t};
    assert t in Holders(s) <==> Holds(s.pcs[t]);
    assert t in Holders(s') <==> Holds(pc);
    assert t in Closers(s) <==> s.pcs[t].CallCloseFD?;
    assert t in Closers(s') <==> pc.CallCloseFD?;
    RemoveOne(Holders(s), t); RemoveOne(Holders(s'), t);
    RemoveOne(Closers(s), t); RemoveOne(Closers(s'), t);
  }

  lemma {:induction false} RemoveOne(a: set<Tid>, t: Tid)
    ensures |a - {t}| == |a| - Bit(t in a)
  {
    if t !in a { assert a - {t} == a; }
  }

  lemma {:induction false} SubsetCard(a: set<Tid>, b: set<Tid>)
    requires a <= b
    ensures |a| <= |b|
    ensures a != b ==> |a| < |b|
  {
    assert b == a + (b - a);
  }

  /** A thread that closes is not a holder, so there are fewer holders than threads. */
  lemma {:induction false} FewHolders(s: State, t: Tid, threads: set<Tid>, fd: nat)
    requires Shape(s, threads, fd) && t in s.pcs
    ensures |Holders(s)| <= HALF && (!Holds(s.pcs[t]) ==> |Holders(s)| < HALF) && (Holds(s.pcs[t]) ==> |Holders(s)| > 0)
  {
    SubsetCard(Holders(s), threads);
    if Holds(s.pcs[t]) { assert t in Holders(s); } else { assert t in threads && t !in Holders(s); }
  }

  lemma {:induction false} ShapeKept(s: State, t: Tid, close: bool, threads: set<Tid>, fd: nat)
    requires Shape(s, threads, fd) && t in s.pcs
    ensures Shape(Next(s, t, close), threads, fd)
  {
    assert PcOk(s.pcs[t], fd);
    var m := MoveOf(s.word, s.pcs[t], close);
    assert PcOk(m.pc, fd);
    assert !Detached(m.word) ==> Low(m.word) == fd;
  }

  lemma {:induction false} BalanceKept(word: Word, pc: Pc, close: bool, holders: nat, closers: nat, closes: seq<nat>, fd: nat)
    requires fd < SIGN && PcOk(pc, fd) && Balance(word, holders, closers, closes, fd)
    requires !Detached(word) ==> Low(word) == fd
    requires if Holds(pc) then 0 < holders <= HALF else holders < HALF
    requires pc.CallCloseFD? ==> closers > 0
    ensures var m := MoveOf(word, pc, close);
      Balance(m.word, holders + Bit(Holds(m.pc)) - Bit(Holds(pc)),
              closers + Bit(m.pc.CallCloseFD?) - Bit(pc.CallCloseFD?), closes + m.closed, fd)
  {
    assert closes + [] == closes;
    WrapsAlong(holders);
  }

  /** Counting up and down commutes with keeping 32 bits of the count. */
  lemma {:induction false} WrapsAlong(n: nat)
    requires n <= HALF
    ensures n < HALF ==> n % HALF == n && (n % HALF + 1) % HALF == (n + 1) % HALF
    ensures n > 0 ==> (n % HALF + HALF - 1) % HALF == n - 1 == (n - 1) % HALF
    ensures HALF % HALF == 0
  {
  }

  lemma {:induction false} StepKeepsInv(s: State, t: Tid, close: bool, threads: set<Tid>, fd: nat)
    requires Inv(s, threads, fd) && t in s.pcs
    ensures Inv(Next(s, t, close), threads, fd)
  {
    ShapeKept(s, t, close, threads, fd);
    Moves(s, t, close);
    FewHolders(s, t, threads, fd);
    if s.pcs[t].CallCloseFD? { assert t in Closers(s); }
    assert PcOk(s.pcs[t], fd);
    BalanceKept(s.word, s.pcs[t], close, |Holders(s)|, |Closers(s)|, s.closes, fd);
  }

  lemma {:induction false} RunKeepsInv(run: seq<State>, threads: set<Tid>, fd: nat, i: nat)
    requires fd < SIGN && Run(run, threads, fd) && |threads| <= HALF && i < |run|
    ensures Inv(run[i], threads, fd)
  {
    if i == 0 {
      assert Holders(run[0]) == {} && Closers(run[0]) == {};
    } else {
      RunKeepsInv(run, threads, fd, i - 1);
      assert Step(run[i - 1], run[i - 1 + 1]);
      var t, close :| t in run[i - 1].pcs && run[i] == Next(run[i - 1], t, close);
      StepKeepsInv(run[i - 1], t, close, threads, fd);
    }
  }

  // ----- what every run guarantees

  /** The descriptor is closed at most once, never while held, and by the time every call
      has returned after a close, exactly once. */
  ghost predicate Safe(s: State, fd: nat) {
    && (s.closes == [] || s.closes == [fd])
    && (Holders(s) != {} ==> s.closes == [])
    && (!Detached(s.word) ==> s.closes == [])
    && (Detached(s.word) && (forall t :: t in s.pcs ==> s.pcs[t] == Idle) ==> s.closes == [fd])
  }

  lemma {:induction false} RunIsSafe(run: seq<State>, threads: set<Tid>, fd: nat, i: nat)
    requires fd < SIGN && Run(run, threads, fd) && |threads| <= HALF && i < |run|
    ensures Safe(run[i], fd)
    ensures RefCount(run[i].word) == |Holders(run[i])| % HALF
  {
    RunKeepsInv(run, threads, fd, i);
    var s := run[i];
    if forall t :: t in s.pcs ==> s.pcs[t] == Idle {
      assert Holders(s) == {} && Closers(s) == {};
    }
  }

  lemma {:induction false} DetachedStep(s: State, t: Tid, close: bool)
    requires t in s.pcs && Detached(s.word)
    requires s.pcs[t].AcquireCas? ==> !Detached(s.pcs[t].seen)
    ensures Detached(Next(s, t, close).word) && Holders(Next(s, t, close)) <= Holders(s)
  {
    Moves(s, t, close);
  }

  /** After a close no acquire succeeds: from then on the holders only become fewer. */
  lemma {:induction false} NoAcquireAfterClose(run: seq<State>, threads: set<Tid>, fd: nat, i: nat, j: nat)
    requires fd < SIGN && Run(run, threads, fd) && |threads| <= HALF && i <= j < |run|
    requires Detached(run[i].word)
    ensures Detached(run[j].word) && Holders(run[j]) <= Holders(run[i])
    decreases j
  {
    if i < j {
      NoAcquireAfterClose(run, threads, fd, i, j - 1);
      RunKeepsInv(run, threads, fd, j - 1);
      assert Step(run[j - 1], run[j - 1 + 1]);
      StaysDetached(run[j - 1], run[j], threads, fd);
    }
  }

  lemma {:induction false} StaysDetached(s: State, s': State, threads: set<Tid>, fd: nat)
    requires Inv(s, threads, fd) && Step(s, s') && Detached(s.word)
    ensures Detached(s'.word) && Holders(s') <= Holders(s)
  {
    var t, close :| t in s.pcs && s' == Next(s, t, close);
    assert PcOk(s.pcs[t], fd);
    DetachedStep(s, t, close);
  }

  /** A holder that never releases keeps the descriptor open for ever. */
  lemma {:induction false} HeldStaysOpen(run: seq<State>, threads: set<Tid>, fd: nat, t: Tid, i: nat)
    requires fd < SIGN && Run(run, threads, fd) && |threads| <= HALF && i < |run|
    requires t in Holders(run[i])
    ensures forall k :: 0 <= k <= i ==> run[k].closes == []
  {
    forall k | 0 <= k <= i ensures run[k].closes == [] {
      RunIsSafe(run, threads, fd, i);
      ClosesGrow(run, threads, fd, k, i);
    }
  }

  lemma {:induction false} ClosesGrow(run: seq<State>, threads: set<Tid>, fd: nat, i: nat, j: nat)
    requires fd < SIGN && Run(run, threads, fd) && i <= j < |run|
    ensures run[i].closes <= run[j].closes
    decreases j
  {
    if i < j {
      ClosesGrow(run, threads, fd, i, j - 1);
      assert Step(run[j - 1], run[j - 1 + 1]);
    }
  }

  // ----- how calls return

  predicate Acquiring(pc: Pc) { pc.AcquireLoad? || pc.AcquireCas? }

  predicate Releasing(pc: Pc, fd: nat) { pc == ReleaseLoad(fd) || (pc.ReleaseCas? && pc.fd == fd) }

  predicate Closing(pc: Pc) { pc.CloseLoad? || pc.CloseCas? }

  /** What a call in progress may do in one step: try again, or return.  An acquire returns with
      the descriptor and one more reference, or empty-handed because the descriptor was detached;
      a release, with one reference less; a close, with the descriptor detached.  The one that
      leaves a detached word without references goes on to call closeFD. */
  ghost predicate Returns(s: State, s': State, t: Tid, fd: nat)
    requires t in s.pcs && t in s'.pcs
  {
    var pc, pc' := s.pcs[t], s'.pcs[t];
    && (Acquiring(pc) && !Acquiring(pc') ==>
         || (pc' == Holding(fd) && !Detached(s.word) && s'.word == (s.word + HALF) % (HALF * HALF))
         || (pc' == Idle && Detached(s.word) && s'.word == s.word))
    && (Releasing(pc, fd) && !Releasing(pc', fd) ==>
         && s'.word == (s.word + HALF * HALF - HALF) % (HALF * HALF)
         && pc' == if Detached(s'.word) && RefCount(s'.word) == 0 then CallCloseFD(fd) else Idle)
    && (Closing(pc) && !Closing(pc') ==>
         && Detached(s'.word) && RefCount(s'.word) == RefCount(s.word)
         && pc' == if !Detached(s.word) && RefCount(s.word) == 0 then CallCloseFD(fd) else Idle)
    && ((Acquiring(pc) && Acquiring(pc')) || (Releasing(pc, fd) && Releasing(pc', fd)) || (Closing(pc) && Closing(pc')) ==> s'.word == s.word)
    && (pc == Idle ==> (Acquiring(pc') || Closing(pc')) && s'.word == s.word)
    && (pc == Holding(fd) ==> Releasing(pc', fd) && s'.word == s.word)
    && (pc == CallCloseFD(fd) ==> pc' == Idle && s'.word == s.word)
    && s'.closes == if pc == CallCloseFD(fd) then s.closes + [fd] else s.closes
  }

  lemma {:induction false} StepReturns(s: State, t: Tid, close: bool, threads: set<Tid>, fd: nat)
    requires Inv(s, threads, fd) && t in s.pcs
    ensures Returns(s, Next(s, t, close), t, fd)
    ensures forall u :: u in s.pcs && u != t ==> Next(s, t, close).pcs[u] == s.pcs[u]
  {
    assert PcOk(s.pcs[t], fd);
    WordArithmetic(s.word);
    FewHolders(s, t, threads, fd);
    if s.pcs[t].ReleaseCas? && s.word == s.pcs[t].seen { LastRelease(s, t, threads, fd); }
  }

  /** A holder is counted, so releasing takes the count down by one. */
  lemma {:induction false} LastRelease(s: State, t: Tid, threads: set<Tid>, fd: nat)
    requires Inv(s, threads, fd) && t in s.pcs && Holds(s.pcs[t])
    ensures Detached(s.word) ==> RefCount(s.word) > 0
    ensures RefCount(Released(s.word)) == (RefCount(s.word) + HALF - 1) % HALF && Low(Released(s.word)) == Low(s.word)
  {
    assert t in Holders(s);
    if Detached(s.word) { SmallMod(|Holders(s)|, HALF); }
  }

  /** Every step of a run is such a step of one thread. */
  lemma {:induction false} RunReturns(run: seq<State>, threads: set<Tid>, fd: nat, i: nat, t: Tid)
    requires fd < SIGN && Run(run, threads, fd) && |threads| <= HALF && i + 1 < |run| && t in threads
    ensures t in run[i].pcs && t in run[i + 1].pcs && (run[i + 1].pcs[t] != run[i].pcs[t] ==> Returns(run[i], run[i + 1], t, fd))
  {
    RunKeepsInv(run, threads, fd, i);
    RunKeepsInv(run, threads, fd, i + 1);
    assert Step(run[i], run[i + 1]);
    var u, close :| u in run[i].pcs && run[i + 1] == Next(run[i], u, close);
    StepReturns(run[i], u, close, threads, fd);
  }

  /** After a close has returned the descriptor is detached for ever, no acquire succeeds, and once
      all calls have returned it was closed exactly once. */
  lemma {:induction false} AfterClose(run: seq<State>, threads: set<Tid>, fd: nat, k: nat, t: Tid, j: nat)
    requires fd < SIGN && Run(run, threads, fd) && |threads| <= HALF && k + 1 <= j < |run| && t in threads
    requires t in run[k].pcs && t in run[k + 1].pcs && Closing(run[k].pcs[t]) && !Closing(run[k + 1].pcs[t])
    ensures Detached(run[j].word) && Holders(run[j]) <= Holders(run[k + 1])
    ensures (forall u :: u in run[j].pcs ==> run[j].pcs[u] == Idle) ==> run[j].closes == [fd]
  {
    RunReturns(run, threads, fd, k, t);
    NoAcquireAfterClose(run, threads, fd, k + 1, j);
    RunIsSafe(run, threads, fd, j);
  }

  // ----- the bound on the number of threads is exact

  function Last(run: seq<State>): State
    requires run != []
  {
    run[|run| - 1]
  }

  lemma {:induction false} Extend(run: seq<State>, threads: set<Tid>, fd: nat, t: Tid, close: bool) returns (longer: seq<State>)
    requires fd < SIGN && Run(run, threads, fd) && t in Last(run).pcs
    ensures Run(longer, threads, fd) && Last(longer) == Next(Last(run), t, close)
  {
    longer := run + [Next(Last(run), t, close)];
    forall i | 0 <= i < |longer| - 1 ensures Step(longer[i], longer[i + 1]) {
      if i < |run| - 1 {
        assert Step(run[i], run[i + 1]);
      } else {
        assert longer[i + 1] == Next(longer[i], t, close);
      }
    }
  }

  /** One thread alone takes a reference. */
  lemma {:induction false} AcquireOne(run: seq<State>, threads: set<Tid>, fd: nat, t: Tid) returns (longer: seq<State>)
    requires fd < SIGN && Run(run, threads, fd)
    requires var s := Last(run); t in s.pcs && s.pcs[t] == Idle && Low(s.word) == fd
    ensures Run(longer, threads, fd)
    ensures var s := Last(run); Last(longer) == State(Acquired(s.word), s.pcs[t := Holding(fd)], s.closes)
  {
    var s := Last(run);
    longer := Extend(run, threads, fd, t, false);
    longer := Extend(longer, threads, fd, t, false);
    longer := Extend(longer, threads, fd, t, false);
    assert s.pcs[t := AcquireLoad][t := AcquireCas(s.word)][t := Holding(fd)] == s.pcs[t := Holding(fd)];
    assert s.closes + [] == s.closes;
  }

  /** The threads `todo`, idle before, have each taken a reference. */
  ghost predicate AllTook(s: State, s': State, todo: set<Tid>, fd: nat)
    requires fd < SIGN
  {
    && s'.word == Pack((RefCount(s.word) + |todo|) % HALF, fd) && s'.closes == s.closes && s'.pcs.Keys == s.pcs.Keys
    && forall t :: t in s.pcs ==> s'.pcs[t] == if t in todo then Holding(fd) else s.pcs[t]
  }

  lemma {:induction false} AcquireEach(run: seq<State>, threads: set<Tid>, fd: nat, todo: set<Tid>) returns (longer: seq<State>)
    requires fd < SIGN && Run(run, threads, fd) && Low(Last(run).word) == fd
    requires forall t :: t in todo ==> t in Last(run).pcs && Last(run).pcs[t] == Idle
    ensures Run(longer, threads, fd) && AllTook(Last(run), Last(longer), todo, fd)
    decreases |todo|
  {
    if todo == {} {
      longer := run;
    } else {
      var t :| t in todo;
      var first := AcquireOne(run, threads, fd, t);
      longer := AcquireEach(first, threads, fd, todo - {t});
      OneMoreTook(Last(run), Last(first), Last(longer), t, todo, fd);
    }
  }

  lemma {:induction false} OneMoreTook(s: State, mid: State, s': State, t: Tid, todo: set<Tid>, fd: nat)
    requires fd < SIGN && t in todo && t in s.pcs && Low(s.word) == fd && AllTook(mid, s', todo - {t}, fd)
    requires mid == State(Acquired(s.word), s.pcs[t := Holding(fd)], s.closes)
    ensures AllTook(s, s', todo, fd)
  {
    CountWraps(RefCount(s.word));
    CountAdds(RefCount(s.word), |todo|);
  }

  lemma {:induction false} CountWraps(n: nat)
    requires n < HALF
    ensures (n + 1) % HALF == if n + 1 == HALF then 0 else n + 1
  {
  }

  lemma {:induction false} CountAdds(n: nat, k: nat)
    requires n < HALF && k > 0
    ensures ((n + 1) % HALF + (k - 1)) % HALF == (n + k) % HALF
  {
  }

  lemma {:induction false} SubsetOfSize(s: set<Tid>, n: nat) returns (r: set<Tid>)
    requires n <= |s|
    ensures r <= s && |r| == n
  {
    if n == |s| {
      r := s;
    } else {
      var t :| t in s;
      r := SubsetOfSize(s - {t}, n);
    }
  }

  /** A thread that closes a descriptor whose count reads zero calls closeFD. */
  lemma {:induction false} CloseAtZero(run: seq<State>, threads: set<Tid>, fd: nat, c: Tid) returns (longer: seq<State>)
    requires fd < SIGN && Run(run, threads, fd)
    requires var s := Last(run); c in s.pcs && s.pcs[c] == Idle && s.word == Pack(0, fd) && s.closes == []
    ensures Run(longer, threads, fd) && Last(longer).closes == [fd]
    ensures forall t :: t in Last(run).pcs && t != c ==> t in Last(longer).pcs && Last(longer).pcs[t] == Last(run).pcs[t]
  {
    longer := Extend(run, threads, fd, c, true);
    longer := Extend(longer, threads, fd, c, true);
    longer := Extend(longer, threads, fd, c, true);
    longer := Extend(longer, threads, fd, c, true);
  }

  /** With one thread more than the count can tell apart, 2^32 acquires bring the count
      back to zero and a close then closes the descriptor under its holders. */
  lemma {:induction false} TooManyThreads(threads: set<Tid>, fd: nat) returns (run: seq<State>)
    requires fd < SIGN && |threads| > HALF
    ensures Run(run, threads, fd) && !Safe(Last(run), fd)
  {
    var start := State(Pack(0, fd), map t | t in threads :: Idle, []);
    run := [start];
    assert Init(start, threads, fd);
    var many := SubsetOfSize(threads, HALF);
    run := AcquireEach(run, threads, fd, many);
    assert threads == many + (threads - many);
    var c :| c in threads - many;
    var h :| h in many;
    run := CloseAtZero(run, threads, fd, c);
    assert h in Holders(Last(run));
  }

  /** Every run is safe exactly when there are at most 2^32 threads. */
  lemma {:induction false} SafeExactly(threads: set<Tid>, fd: nat)
    requires fd < SIGN
    ensures |threads| <= HALF <==>
      forall run: seq<State>, i :: Run(run, threads, fd) && 0 <= i < |run| ==> Safe(run[i], fd)
  {
    if |threads| <= HALF {
      forall run: seq<State>, i | Run(run, threads, fd) && 0 <= i < |run| ensures Safe(run[i], fd) {
        RunIsSafe(run, threads, fd, i);
      }
    } else {
      var run := TooManyThreads(threads, fd);
      assert !Safe(run[|run| - 1], fd);
    }
  }
}

/**
 * The print spooler: any number of clients and one printer share a ring of slots, three semaphores and two indices.
 * One step is one semaphore operation or one access to the shared memory, by one process.
 */
module Spooler {
  import opened Arith

  /** What a client wants printed. */
  datatype Job = Job(id: int, pages: int)

  /** Where a client is in put_a_job; `CheckEmpty` looks at the semaphore only to choose a message. */
  datatype ClientPc = CheckEmpty | WaitEmpty | WaitMutex | ReadIndex | Advance | StoreId | StorePages | PostMutex
                    | PostFull | Gone

  datatype Client = Client(pc: ClientPc, temp: nat)

  /** Where the printer is in its loop; `Print` is the message and the sleep. */
  datatype PrinterPc = CheckFull | AwaitFull | AwaitMutex | ReadPosition | ReadId | ReadPages | LeaveMutex | Print
                     | Turn | PostEmpty

  datatype Printer = Printer(pc: PrinterPc, position: nat, jobID: int, jobPages: int)

  /** Who is between waiting for the mutex and posting it. */
  datatype Holder = Nobody | ByClient(i: nat) | ByPrinter

  /**
   * The shared memory and the processes, with a record of the run: the clients in the order they claimed slots,
   * the jobs the printer has read, how many slots it has given back, and who holds the mutex.
   */
  datatype State = State(empty: nat, full: nat, mutex: nat, clientIndex: nat, printerIndex: nat, arr: seq<int>,
                         clients: seq<Client>, printer: Printer,
                         claims: seq<nat>, taken: seq<Job>, released: nat, holder: Holder)

  /** The number of slots and the job of each client. */
  datatype Setup = Setup(size: nat, jobs: seq<Job>)

  datatype Process = AClient(i: nat) | ThePrinter

  function Rank(pc: ClientPc): nat {
    match pc
    case CheckEmpty => 0 case WaitEmpty => 1 case WaitMutex => 2 case ReadIndex => 3 case Advance => 4
    case StoreId => 5 case StorePages => 6 case PostMutex => 7 case PostFull => 8 case Gone => 9
  }

  function PrinterRank(pc: PrinterPc): nat {
    match pc
    case CheckFull => 0 case AwaitFull => 1 case AwaitMutex => 2 case ReadPosition => 3 case ReadId => 4
    case ReadPages => 5 case LeaveMutex => 6 case Print => 7 case Turn => 8 case PostEmpty => 9
  }

  function Init(u: Setup): State {
    State(u.size, 0, 1, 0, 0, seq(2 * u.size, _ => -1),
          seq(|u.jobs|, _ => Client(CheckEmpty, 0)), Printer(CheckFull, 0, 0, 0), [], [], 0, Nobody)
  }

  predicate Shaped(u: Setup, s: State) {
    && u.size > 0 && |s.arr| == 2 * u.size && |s.clients| == |u.jobs|
    && s.clientIndex < u.size && s.printerIndex < u.size && s.printer.position < u.size
    && (forall i | 0 <= i < |s.clients| :: s.clients[i].temp < u.size)
  }

  /** A semaphore blocks at 0; nothing else does, except that a client that is done stays done. */
  predicate Enabled(u: Setup, s: State, p: Process) {
    Shaped(u, s) &&
    match p
    case AClient(i) =>
      i < |s.clients| && (match s.clients[i].pc
                          case WaitEmpty => s.empty > 0
                          case WaitMutex => s.mutex > 0
                          case Gone => false
                          case _ => true)
    case ThePrinter =>
      match s.printer.pc
      case AwaitFull => s.full > 0
      case AwaitMutex => s.mutex > 0
      case _ => true
  }

  function NextIndex(k: nat, size: nat): (r: nat)
    requires k < size
    ensures r < size && r == (k + 1) % size
  {
    RingNext(k, size);
    if k == size - 1 then 0 else k + 1
  }

  function ClientStep(u: Setup, s: State, i: nat): State
    requires Enabled(u, s, AClient(i))
  {
    var c, job := s.clients[i], u.jobs[i];
    match c.pc
    case CheckEmpty => s.(clients := s.clients[i := c.(pc := WaitEmpty)])
    case WaitEmpty => s.(empty := s.empty - 1, clients := s.clients[i := c.(pc := WaitMutex)])
    case WaitMutex => s.(mutex := s.mutex - 1, holder := ByClient(i), clients := s.clients[i := c.(pc := ReadIndex)])
    case ReadIndex => s.(clients := s.clients[i := Client(Advance, s.clientIndex)])
    case Advance => s.(clientIndex := NextIndex(s.clientIndex, u.size), claims := s.claims + [i],
                       clients := s.clients[i := c.(pc := StoreId)])
    case StoreId => s.(arr := s.arr[c.temp := job.id], clients := s.clients[i := c.(pc := StorePages)])
    case StorePages => s.(arr := s.arr[c.temp + u.size := job.pages], clients := s.clients[i := c.(pc := PostMutex)])
    case PostMutex => s.(mutex := s.mutex + 1, holder := Nobody, clients := s.clients[i := c.(pc := PostFull)])
    case PostFull => s.(full := s.full + 1, clients := s.clients[i := c.(pc := Gone)])
  }

  function PrinterStep(u: Setup, s: State): State
    requires Enabled(u, s, ThePrinter)
  {
    var p := s.printer;
    match p.pc
    case CheckFull => s.(printer := p.(pc := AwaitFull))
    case AwaitFull => s.(full := s.full - 1, printer := p.(pc := AwaitMutex))
    case AwaitMutex => s.(mutex := s.mutex - 1, holder := ByPrinter, printer := p.(pc := ReadPosition))
    case ReadPosition => s.(printer := p.(pc := ReadId, position := s.printerIndex))
    case ReadId => s.(printer := p.(pc := ReadPages, jobID := s.arr[p.position]))
    case ReadPages =>
      var pages := s.arr[p.position + u.size];
      s.(printer := p.(pc := LeaveMutex, jobPages := pages), taken := s.taken + [Job(p.jobID, pages)])
    case LeaveMutex => s.(mutex := s.mutex + 1, holder := Nobody, printer := p.(pc := Print))
    case Print => s.(printer := p.(pc := Turn))
    case Turn => s.(printerIndex := NextIndex(s.printerIndex, u.size), printer := p.(pc := PostEmpty))
    case PostEmpty => s.(empty := s.empty + 1, released := s.released + 1, printer := p.(pc := CheckFull))
  }

  function Step(u: Setup, s: State, p: Process): State
    requires Enabled(u, s, p)
  {
    match p
    case AClient(i) => ClientStep(u, s, i)
    case ThePrinter => PrinterStep(u, s)
  }

  /** An interleaving: every process named could move when it did. */
  predicate Possible(u: Setup, s: State, ps: seq<Process>)
    decreases |ps|
  {
    ps != [] ==> Enabled(u, s, ps[0]) && Possible(u, Step(u, s, ps[0]), ps[1..])
  }

  function After(u: Setup, s: State, ps: seq<Process>): State
    requires Possible(u, s, ps)
    decreases |ps|
  {
    if ps == [] then s else After(u, Step(u, s, ps[0]), ps[1..])
  }

  // ----- counting clients -----

  /** How many clients have come as far as `r`. */
  function Reached(cs: seq<Client>, r: nat): nat {
    if cs == [] then 0 else (if Rank(cs[0].pc) >= r then 1 else 0) + Reached(cs[1..], r)
  }

  lemma {:induction false} ReachedMove(cs: seq<Client>, i: nat, c: Client, r: nat)
    requires i < |cs|
    ensures Reached(cs[i := c], r) + (if Rank(cs[i].pc) >= r then 1 else 0)
         == Reached(cs, r) + (if Rank(c.pc) >= r then 1 else 0)
  {
    if i == 0 {
      assert cs[i := c][1..] == cs[1..];
    } else {
      assert cs[i := c][1..] == cs[1..][i - 1 := c];
      ReachedMove(cs[1..], i - 1, c, r);
    }
  }

  lemma {:induction false} ReachedLess(cs: seq<Client>, q: nat, r: nat)
    requires q <= r
    ensures Reached(cs, r) <= Reached(cs, q) <= |cs|
  {
    if cs != [] {
      ReachedLess(cs[1..], q, r);
    }
  }

  // ----- the invariant -----

  predicate InCritical(pc: ClientPc) {
    3 <= Rank(pc) <= 7
  }

  predicate PrinterInCritical(pc: PrinterPc) {
    3 <= PrinterRank(pc) <= 6
  }

  predicate MutexOK(s: State) {
    && s.mutex == (if s.holder.Nobody? then 1 else 0)
    && (forall i | 0 <= i < |s.clients| :: InCritical(s.clients[i].pc) <==> s.holder == ByClient(i))
    && (PrinterInCritical(s.printer.pc) <==> s.holder == ByPrinter)
    && (s.holder.ByClient? ==> s.holder.i < |s.clients|)
  }

  /** The printer is between waiting for `full` and posting `empty`. */
  predicate Busy(s: State) {
    PrinterRank(s.printer.pc) >= 2
  }

  predicate TokensOK(u: Setup, s: State) {
    && s.empty + Reached(s.clients, 2) == u.size + s.released
    && s.full + s.released + (if Busy(s) then 1 else 0) == Reached(s.clients, 9)
    && |s.claims| == Reached(s.clients, 5)
  }

  function Slot(size: nat, k: nat): (r: nat)
    requires size > 0
    ensures r < size
  {
    k % size
  }

  lemma SlotsDiffer(size: nat, j: nat, k: nat)
    requires size > 0 && j <= k < j + size
    ensures Slot(size, j) == Slot(size, k) <==> j == k
  {
    RingInjective(j, k, size);
  }

  lemma SlotNext(size: nat, k: nat)
    requires size > 0
    ensures NextIndex(Slot(size, k), size) == Slot(size, k + 1)
  {
    RingNext(k, size);
  }

  /** Claims are by different clients, each past claiming. */
  predicate ClaimsOK(u: Setup, s: State)
    requires u.size > 0
  {
    && (forall k | 0 <= k < |s.claims| :: s.claims[k] < |s.clients| && Rank(s.clients[s.claims[k]].pc) >= 5)
    && (forall j, k | 0 <= j < k < |s.claims| :: s.claims[j] != s.claims[k])
  }

  /** A client that is storing holds the last claim, and knows its slot. */
  predicate StorerOK(u: Setup, s: State)
    requires u.size > 0
  {
    && (forall i | 0 <= i < |s.clients| && 5 <= Rank(s.clients[i].pc) <= 7 ::
          s.claims != [] && s.claims[|s.claims| - 1] == i && s.clients[i].temp == Slot(u.size, |s.claims| - 1))
    && (forall i | 0 <= i < |s.clients| && s.clients[i].pc == Advance :: s.clients[i].temp == Slot(u.size, |s.claims|))
  }

  /** The slot of claim `k` holds what its client has stored so far. */
  predicate SlotHolds(u: Setup, s: State, k: nat)
    requires Shaped(u, s) && k < |s.claims| && s.claims[k] < |s.clients|
  {
    var i := s.claims[k];
    && (Rank(s.clients[i].pc) >= 6 ==> s.arr[Slot(u.size, k)] == u.jobs[i].id)
    && (Rank(s.clients[i].pc) >= 7 ==> s.arr[Slot(u.size, k) + u.size] == u.jobs[i].pages)
  }

  predicate SlotsOK(u: Setup, s: State)
    requires Shaped(u, s) && ClaimsOK(u, s)
  {
    && s.clientIndex == Slot(u.size, |s.claims|)
    && s.printerIndex == Slot(u.size, s.released + if s.printer.pc == PostEmpty then 1 else 0)
    && (forall k | s.released <= k < |s.claims| :: SlotHolds(u, s, k))
  }

  /** What the printer has read is what was claimed, in the order of the claims. */
  predicate PrintedOK(u: Setup, s: State)
    requires Shaped(u, s) && ClaimsOK(u, s)
  {
    var r := PrinterRank(s.printer.pc);
    && (4 <= r ==> s.printer.position == Slot(u.size, s.released))
    && (r == 5 ==> s.released < |s.claims| && s.printer.jobID == u.jobs[s.claims[s.released]].id)
    && |s.taken| == s.released + (if r >= 6 then 1 else 0) <= |s.claims|
    && (r >= 6 ==> Job(s.printer.jobID, s.printer.jobPages) == u.jobs[s.claims[s.released]])
    && (forall k | 0 <= k < |s.taken| :: s.taken[k] == u.jobs[s.claims[k]])
  }

  predicate Inv(u: Setup, s: State) {
    && Shaped(u, s) && MutexOK(s) && TokensOK(u, s)
    && ClaimsOK(u, s) && StorerOK(u, s) && SlotsOK(u, s) && PrintedOK(u, s)
  }

  lemma {:induction false} NobodyReached(n: nat, r: nat)
    requires r > 0
    ensures Reached(seq(n, _ => Client(CheckEmpty, 0)), r) == 0
  {
    if n > 0 {
      assert seq(n, _ => Client(CheckEmpty, 0))[1..] == seq(n - 1, _ => Client(CheckEmpty, 0));
      NobodyReached(n - 1, r);
    }
  }

  lemma InitInv(u: Setup)
    requires u.size > 0
    ensures Inv(u, Init(u))
  {
    NobodyReached(|u.jobs|, 2);
    NobodyReached(|u.jobs|, 5);
    NobodyReached(|u.jobs|, 9);
  }

  /** No more slots are claimed than there are, and a busy printer has a claimed job to print. */
  lemma ClaimBounds(u: Setup, s: State)
    requires Shaped(u, s) && TokensOK(u, s)
    ensures |s.claims| <= s.released + u.size && |s.claims| <= |s.clients|
    ensures s.released + (if Busy(s) then 1 else 0) <= |s.claims|
    ensures forall i | 0 <= i < |s.clients| && Rank(s.clients[i].pc) == 4 :: |s.claims| < s.released + u.size
  {
    ReachedLess(s.clients, 2, 5);
    ReachedLess(s.clients, 5, 9);
    forall i | 0 <= i < |s.clients| && Rank(s.clients[i].pc) == 4 ensures |s.claims| < s.released + u.size {
      ReachedBetween(s.clients, i, 2, 5);
    }
  }

  lemma {:induction false} ReachedBetween(cs: seq<Client>, i: nat, q: nat, r: nat)
    requires i < |cs| && q <= Rank(cs[i].pc) < r
    ensures Reached(cs, r) < Reached(cs, q)
  {
    if i == 0 {
      ReachedLess(cs[1..], q, r);
    } else {
      ReachedBetween(cs[1..], i - 1, q, r);
    }
  }

  // ----- steps of a client -----

  lemma ClientTokens(u: Setup, s: State, i: nat)
    requires Inv(u, s) && Enabled(u, s, AClient(i))
    ensures Shaped(u, ClientStep(u, s, i)) && TokensOK(u, ClientStep(u, s, i))
  {
    hide ClaimsOK, SlotsOK, PrintedOK, MutexOK, Slot, Reached, NextIndex;
    var c := ClientStep(u, s, i).clients[i];
    ReachedMove(s.clients, i, c, 2);
    ReachedMove(s.clients, i, c, 5);
    ReachedMove(s.clients, i, c, 9);
  }

  lemma ClientMutex(u: Setup, s: State, i: nat)
    requires Inv(u, s) && Enabled(u, s, AClient(i))
    ensures MutexOK(ClientStep(u, s, i))
  {
    hide ClaimsOK, SlotsOK, PrintedOK, TokensOK, Slot;
  }

  lemma ClientClaims(u: Setup, s: State, i: nat)
    requires Inv(u, s) && Enabled(u, s, AClient(i))
    ensures ClaimsOK(u, ClientStep(u, s, i))
  {
    hide PrintedOK, TokensOK, MutexOK, StorerOK, Slot, SlotHolds, SlotsOK, Reached, NextIndex;
  }

  lemma ClientStorer(u: Setup, s: State, i: nat)
    requires Inv(u, s) && Enabled(u, s, AClient(i))
    ensures StorerOK(u, ClientStep(u, s, i))
  {
    hide PrintedOK, TokensOK, Slot, SlotHolds, SlotsOK, ClaimsOK, Reached, NextIndex;
    IndicesKnown(u, s);
    assert InCritical(s.clients[i].pc) ==>
        forall x | 0 <= x < |s.clients| && x != i :: !InCritical(s.clients[x].pc);
  }

  lemma IndicesKnown(u: Setup, s: State)
    requires Inv(u, s)
    ensures s.clientIndex == Slot(u.size, |s.claims|)
    ensures s.printerIndex == Slot(u.size, s.released + if s.printer.pc == PostEmpty then 1 else 0)
  {
  }

  /** A claim whose job is not given back keeps its two halves whole while others move. */
  lemma ClientSlots(u: Setup, s: State, i: nat)
    requires Inv(u, s) && Enabled(u, s, AClient(i)) && ClaimsOK(u, ClientStep(u, s, i))
      && Shaped(u, ClientStep(u, s, i))
    ensures SlotsOK(u, ClientStep(u, s, i))
  {
    hide PrintedOK, TokensOK, MutexOK, Slot, Reached, NextIndex;
    var s' := ClientStep(u, s, i);
    ClaimBounds(u, s);
    SlotNext(u.size, |s.claims|);
    forall k | s'.released <= k < |s'.claims| ensures SlotHolds(u, s', k) {
      if k < |s.claims| {
        assert SlotHolds(u, s, k);
        if 5 <= Rank(s.clients[i].pc) <= 6 {
          SlotsDiffer(u.size, k, |s.claims| - 1);
        }
      }
    }
  }

  lemma ClientPrinted(u: Setup, s: State, i: nat)
    requires Inv(u, s) && Enabled(u, s, AClient(i)) && ClaimsOK(u, ClientStep(u, s, i))
      && Shaped(u, ClientStep(u, s, i))
    ensures PrintedOK(u, ClientStep(u, s, i))
  {
    hide TokensOK, MutexOK, StorerOK, SlotsOK, Slot, Reached, NextIndex;
  }

  // ----- steps of the printer -----

  lemma PrinterTokens(u: Setup, s: State)
    requires Inv(u, s) && Enabled(u, s, ThePrinter)
    ensures Shaped(u, PrinterStep(u, s)) && TokensOK(u, PrinterStep(u, s)) && MutexOK(PrinterStep(u, s))
    ensures ClaimsOK(u, PrinterStep(u, s)) && StorerOK(u, PrinterStep(u, s))
  {
    hide SlotsOK, PrintedOK, Slot, Reached, NextIndex;
  }

  lemma PrinterSlots(u: Setup, s: State)
    requires Inv(u, s) && Enabled(u, s, ThePrinter)
    requires ClaimsOK(u, PrinterStep(u, s)) && Shaped(u, PrinterStep(u, s))
    ensures SlotsOK(u, PrinterStep(u, s))
  {
    hide TokensOK, MutexOK, PrintedOK, Slot, Reached, NextIndex;
    SlotNext(u.size, s.released);
    forall k | s.released <= k < |s.claims| ensures SlotHolds(u, PrinterStep(u, s), k) {
      assert SlotHolds(u, s, k);
    }
  }

  /** Both halves of the slot being read were stored by the same client: while the printer reads, nobody stores. */
  lemma ReadWhole(u: Setup, s: State)
    requires Inv(u, s) && PrinterInCritical(s.printer.pc)
    ensures s.released < |s.claims| && s.claims[s.released] < |s.clients|
    ensures var k, job := s.released, u.jobs[s.claims[s.released]];
            s.arr[Slot(u.size, k)] == job.id && s.arr[Slot(u.size, k) + u.size] == job.pages
  {
    hide TokensOK, PrintedOK, StorerOK, Slot, Reached;
    ClaimBounds(u, s);
    assert SlotHolds(u, s, s.released);
    assert !InCritical(s.clients[s.claims[s.released]].pc);
  }

  lemma PrinterPrinted(u: Setup, s: State)
    requires Inv(u, s) && Enabled(u, s, ThePrinter)
    requires ClaimsOK(u, PrinterStep(u, s)) && Shaped(u, PrinterStep(u, s))
    ensures PrintedOK(u, PrinterStep(u, s))
  {
    hide MutexOK, StorerOK, SlotsOK, Slot, Reached, NextIndex, SlotHolds, TokensOK;
    ClaimBounds(u, s);
    IndicesKnown(u, s);
    if PrinterInCritical(s.printer.pc) {
      ReadWhole(u, s);
    }
  }

  // ----- every run -----

  lemma StepKeepsInv(u: Setup, s: State, p: Process)
    requires Inv(u, s) && Enabled(u, s, p)
    ensures Inv(u, Step(u, s, p))
  {
    hide Shaped, MutexOK, TokensOK, ClaimsOK, StorerOK, SlotsOK, PrintedOK, ClientStep, PrinterStep;
    match p
    case AClient(i) =>
      ClientTokens(u, s, i);
      ClientMutex(u, s, i);
      ClientClaims(u, s, i);
      ClientStorer(u, s, i);
      ClientSlots(u, s, i);
      ClientPrinted(u, s, i);
    case ThePrinter =>
      PrinterTokens(u, s);
      PrinterSlots(u, s);
      PrinterPrinted(u, s);
  }

  /** The invariant holds at the end of every interleaving. */
  lemma {:induction false} RunKeepsInv(u: Setup, s: State, ps: seq<Process>)
    requires Inv(u, s) && Possible(u, s, ps)
    ensures Inv(u, After(u, s, ps))
    decreases |ps|
  {
    hide Inv, Enabled, Step;
    if ps != [] {
      StepKeepsInv(u, s, ps[0]);
      RunKeepsInv(u, Step(u, s, ps[0]), ps[1..]);
    }
  }

  // ----- safety, in every reachable state -----

  ghost predicate Reachable(u: Setup, s: State) {
    u.size > 0 && exists ps :: Possible(u, Init(u), ps) && After(u, Init(u), ps) == s
  }

  lemma ReachableInv(u: Setup, s: State)
    requires Reachable(u, s)
    ensures Inv(u, s)
  {
    hide Inv;
    var ps :| Possible(u, Init(u), ps) && After(u, Init(u), ps) == s;
    InitInv(u);
    RunKeepsInv(u, Init(u), ps);
  }

  /** Exactly-once printing in the order of the claims, with the two halves of a job together. */
  lemma PrintedInOrder(u: Setup, s: State)
    requires Reachable(u, s)
    ensures |s.taken| <= |s.claims|
    ensures forall k | 0 <= k < |s.claims| :: s.claims[k] < |u.jobs|
    ensures forall k | 0 <= k < |s.taken| :: s.taken[k] == u.jobs[s.claims[k]]
    ensures forall j, k | 0 <= j < k < |s.claims| :: s.claims[j] != s.claims[k]
  {
    hide Slot, SlotHolds, TokensOK, MutexOK, Possible;
    ReachableInv(u, s);
  }

  /**
   * What the printer announces, prints and sleeps for: the job of the first claim not yet given back, from the slot of
   * that claim.
   */
  predicate PrintsClaim(u: Setup, s: State) {
    && s.released < |s.claims| && s.claims[s.released] < |u.jobs|
    && s.printer.jobID == u.jobs[s.claims[s.released]].id && s.printer.jobPages == u.jobs[s.claims[s.released]].pages
    && u.size > 0 && s.printer.position == s.released % u.size
  }

  lemma PrintedNow(u: Setup, s: State)
    requires Inv(u, s) && s.printer.pc in {Print, Turn, PostEmpty}
    ensures PrintsClaim(u, s)
  {
    hide SlotHolds, TokensOK, MutexOK;
  }

  /**
   * What is printed, and for how long, is the job of the client whose turn it is: in every reachable state from the
   * announcement to the end of the sleep.
   */
  lemma PrintedRight(u: Setup, s: State)
    requires Reachable(u, s) && s.printer.pc in {Print, Turn, PostEmpty}
    ensures s.released < |s.claims| && s.claims[s.released] < |u.jobs|
    ensures Job(s.printer.jobID, s.printer.jobPages) == u.jobs[s.claims[s.released]]
    ensures s.printer.position == s.released % u.size
  {
    hide Inv, Possible;
    ReachableInv(u, s);
    PrintedNow(u, s);
  }

  /** What a client has put, and where it says so: its own job, in the slot of its claim, the last one made. */
  lemma PutRight(u: Setup, s: State, i: nat)
    requires Reachable(u, s) && i < |s.clients| && s.clients[i].pc == PostMutex
    ensures i < |u.jobs| && s.claims != [] && s.claims[|s.claims| - 1] == i
    ensures s.clients[i].temp == (|s.claims| - 1) % u.size && s.clients[i].temp + u.size < |s.arr|
    ensures s.arr[s.clients[i].temp] == u.jobs[i].id && s.arr[s.clients[i].temp + u.size] == u.jobs[i].pages
  {
    hide MutexOK, PrintedOK, Possible, Reached;
    ReachableInv(u, s);
    ClaimBounds(u, s);
    ReachedBetween(s.clients, i, 5, 9);
    assert SlotHolds(u, s, |s.claims| - 1);
  }

  predicate Inside(u: Setup, s: State, p: Process)
    requires Shaped(u, s)
  {
    match p
    case AClient(i) => i < |s.clients| && InCritical(s.clients[i].pc)
    case ThePrinter => PrinterInCritical(s.printer.pc)
  }

  /** At most one process is between waiting for the mutex and posting it. */
  lemma MutualExclusion(u: Setup, s: State, p: Process, q: Process)
    requires Reachable(u, s) && Shaped(u, s) && Inside(u, s, p) && Inside(u, s, q)
    ensures p == q
  {
    hide TokensOK, ClaimsOK, StorerOK, SlotsOK, PrintedOK, Possible;
    ReachableInv(u, s);
  }

  /**
   * Slot safety: the claimed and given-back counts differ by at most the number of slots, the indices are those counts
   * on the ring, and a client about to store does so in a slot no unread or unfinished job is in.
   */
  lemma SlotSafety(u: Setup, s: State, i: nat)
    requires Reachable(u, s)
    ensures s.released <= |s.claims| <= s.released + u.size
    ensures s.clientIndex == Slot(u.size, |s.claims|)
    ensures s.printerIndex == Slot(u.size, s.released + if s.printer.pc == PostEmpty then 1 else 0)
    ensures i < |s.clients| && (s.clients[i].pc == StoreId || s.clients[i].pc == StorePages) ==>
              && s.claims != [] && s.claims[|s.claims| - 1] == i
              && forall k | s.released <= k < |s.claims| - 1 :: Slot(u.size, k) != s.clients[i].temp
  {
    hide Slot, SlotHolds, MutexOK, Possible, Reached;
    ReachableInv(u, s);
    ClaimBounds(u, s);
    if i < |s.clients| && (s.clients[i].pc == StoreId || s.clients[i].pc == StorePages) {
      forall k | s.released <= k < |s.claims| - 1 ensures Slot(u.size, k) != s.clients[i].temp {
        SlotsDiffer(u.size, k, |s.claims| - 1);
      }
    }
  }

  /** How many clients are between waiting for `empty` and posting `full`. */
  function InFlight(cs: seq<Client>): nat {
    if cs == [] then 0 else (if 2 <= Rank(cs[0].pc) <= 8 then 1 else 0) + InFlight(cs[1..])
  }

  lemma {:induction false} InFlightIs(cs: seq<Client>)
    ensures InFlight(cs) + Reached(cs, 9) == Reached(cs, 2)
  {
    if cs != [] {
      InFlightIs(cs[1..]);
    }
  }

  /** Semaphore tokens are conserved: every slot is free, full, being filled, or being printed. */
  lemma TokensConserved(u: Setup, s: State)
    requires Reachable(u, s)
    ensures s.empty + s.full + InFlight(s.clients) + (if Busy(s) then 1 else 0) == u.size
  {
    hide Slot, SlotHolds, MutexOK, Possible, Reached, ClaimsOK, StorerOK, SlotsOK, PrintedOK, InFlight;
    ReachableInv(u, s);
    InFlightIs(s.clients);
  }

  // ----- progress -----

  /** Steps the clients have still to take. */
  function ClientWork(cs: seq<Client>): nat {
    if cs == [] then 0 else 9 - Rank(cs[0].pc) + ClientWork(cs[1..])
  }

  lemma {:induction false} WorkMove(cs: seq<Client>, i: nat, c: Client)
    requires i < |cs|
    ensures ClientWork(cs[i := c]) + 9 - Rank(cs[i].pc) == ClientWork(cs) + 9 - Rank(c.pc)
  {
    if i == 0 {
      assert cs[i := c][1..] == cs[1..];
    } else {
      assert cs[i := c][1..] == cs[1..][i - 1 := c];
      WorkMove(cs[1..], i - 1, c);
    }
  }

  /** Steps still to come, whoever takes them: the printer ends waiting for a job that does not come. */
  function StepsLeft(u: Setup, s: State): int {
    ClientWork(s.clients) + 10 * (|u.jobs| - s.released) + 1 - PrinterRank(s.printer.pc)
  }

  /** There are always steps left, or none; never fewer. */
  lemma StepsBounded(u: Setup, s: State)
    requires Inv(u, s)
    ensures StepsLeft(u, s) >= 0
  {
    hide ClaimsOK, StorerOK, SlotsOK, PrintedOK, MutexOK, Reached;
    ClaimBounds(u, s);
  }

  /** Each step, even the look at a semaphore, brings the end exactly one step nearer. */
  lemma StepsCount(u: Setup, s: State, p: Process)
    requires Inv(u, s) && Enabled(u, s, p)
    ensures StepsLeft(u, Step(u, s, p)) == StepsLeft(u, s) - 1
  {
    hide ClaimsOK, StorerOK, SlotsOK, PrintedOK, MutexOK, TokensOK, ClientWork, NextIndex;
    match p
    case AClient(i) => WorkMove(s.clients, i, ClientStep(u, s, i).clients[i]);
    case ThePrinter =>
  }

  ghost predicate Stuck(u: Setup, s: State) {
    forall p :: !Enabled(u, s, p)
  }

  /** All clients gone, every slot given back, the printer waiting for a job. */
  predicate Finished(u: Setup, s: State) {
    && (forall i | 0 <= i < |s.clients| :: s.clients[i].pc == Gone)
    && s.released == |u.jobs| && s.printer.pc == AwaitFull && s.full == 0
  }

  lemma {:induction false} AllReached(cs: seq<Client>, r: nat)
    requires forall i | 0 <= i < |cs| :: Rank(cs[i].pc) >= r
    ensures Reached(cs, r) == |cs|
  {
    if cs != [] {
      forall i | 0 <= i < |cs[1..]| ensures Rank(cs[1..][i].pc) >= r {
        assert cs[1..][i] == cs[i + 1];
      }
      AllReached(cs[1..], r);
    }
  }

  lemma {:induction false} SameReached(cs: seq<Client>, q: nat, r: nat)
    requires q <= r && forall i | 0 <= i < |cs| :: Rank(cs[i].pc) >= q ==> Rank(cs[i].pc) >= r
    ensures Reached(cs, q) == Reached(cs, r)
  {
    if cs != [] {
      forall i | 0 <= i < |cs[1..]| ensures Rank(cs[1..][i].pc) >= q ==> Rank(cs[1..][i].pc) >= r {
        assert cs[1..][i] == cs[i + 1];
      }
      SameReached(cs[1..], q, r);
    }
  }

  /** Whoever holds the mutex can go on. */
  lemma HolderMoves(u: Setup, s: State)
    requires Inv(u, s) && !s.holder.Nobody?
    ensures exists p :: Enabled(u, s, p)
  {
    hide ClaimsOK, StorerOK, SlotsOK, PrintedOK, TokensOK;
    if s.holder.ByClient? {
      assert Enabled(u, s, AClient(s.holder.i));
    } else {
      assert Enabled(u, s, ThePrinter);
    }
  }

  /** No deadlock: a run stops only when everything has been printed. */
  lemma StuckOnlyAtEnd(u: Setup, s: State)
    requires Reachable(u, s) && Stuck(u, s)
    ensures Finished(u, s)
  {
    hide Possible, Reached, ClaimsOK, StorerOK, SlotsOK, PrintedOK;
    ReachableInv(u, s);
    assert !Enabled(u, s, ThePrinter);
    if !s.holder.Nobody? {
      HolderMoves(u, s);
      assert false;
    }
    forall i | 0 <= i < |s.clients| ensures s.clients[i].pc == WaitEmpty || s.clients[i].pc == Gone {
      assert !Enabled(u, s, AClient(i));
    }
    SameReached(s.clients, 2, 9);
    forall i | 0 <= i < |s.clients| ensures s.clients[i].pc == Gone {
      assert !Enabled(u, s, AClient(i));
    }
    AllReached(s.clients, 9);
  }

  /** At the end every job has been printed exactly once. */
  lemma EndPrintsAll(u: Setup, s: State)
    requires Reachable(u, s) && Finished(u, s)
    ensures |s.taken| == |s.claims| == |u.jobs|
    ensures multiset(s.taken) == multiset(u.jobs)
  {
    hide Possible, Reached, MutexOK, StorerOK, SlotsOK, Slot;
    ReachableInv(u, s);
    AllReached(s.clients, 9);
    ClaimBounds(u, s);
    Permuted(u.jobs, s.claims, s.taken);
  }

  /** Picking every element once gives the same elements. */
  lemma {:induction false} Permuted(jobs: seq<Job>, picks: seq<nat>, taken: seq<Job>)
    requires |picks| == |jobs| == |taken|
    requires forall k | 0 <= k < |picks| :: picks[k] < |jobs| && taken[k] == jobs[picks[k]]
    requires forall j, k | 0 <= j < k < |picks| :: picks[j] != picks[k]
    ensures multiset(taken) == multiset(jobs)
    decreases |jobs|
  {
    if jobs != [] {
      var n := |jobs| - 1;
      var p := picks[n];
      var fewer := jobs[..p] + jobs[p + 1..];
      var lower := seq(n, k requires 0 <= k < n => if picks[k] < p then picks[k] else picks[k] - 1);
      forall k | 0 <= k < n ensures lower[k] < |fewer| && taken[..n][k] == fewer[lower[k]] {
        assert picks[k] != picks[n];
      }
      Permuted(fewer, lower, taken[..n]);
      assert jobs == jobs[..p] + [jobs[p]] + jobs[p + 1..];
      assert taken == taken[..n] + [jobs[p]];
    }
  }

  /** Every run that cannot go on has the same length and has printed everything: nineteen steps a job and one more. */
  lemma {:induction false} RunLength(u: Setup, s: State, ps: seq<Process>)
    requires Inv(u, s) && Possible(u, s, ps)
    ensures StepsLeft(u, After(u, s, ps)) == StepsLeft(u, s) - |ps|
    decreases |ps|
  {
    hide Inv, Enabled, Step, StepsLeft;
    if ps != [] {
      StepKeepsInv(u, s, ps[0]);
      StepsCount(u, s, ps[0]);
      RunLength(u, Step(u, s, ps[0]), ps[1..]);
    }
  }

  lemma {:induction false} InitWork(n: nat)
    ensures ClientWork(seq(n, _ => Client(CheckEmpty, 0))) == 9 * n
  {
    if n > 0 {
      assert seq(n, _ => Client(CheckEmpty, 0))[1..] == seq(n - 1, _ => Client(CheckEmpty, 0));
      InitWork(n - 1);
    }
  }

  lemma {:induction false} NoWork(cs: seq<Client>)
    requires forall i | 0 <= i < |cs| :: cs[i].pc == Gone
    ensures ClientWork(cs) == 0
  {
    if cs != [] {
      forall i | 0 <= i < |cs[1..]| ensures cs[1..][i].pc == Gone {
        assert cs[1..][i] == cs[i + 1];
      }
      NoWork(cs[1..]);
    }
  }

  /**
   * No run is longer than nineteen steps a job and one; the ones that cannot go on are exactly that long, and
   * complete.
   */
  lemma EveryRunEnds(u: Setup, ps: seq<Process>)
    requires u.size > 0 && Possible(u, Init(u), ps)
    ensures |ps| <= 19 * |u.jobs| + 1
    ensures Stuck(u, After(u, Init(u), ps)) <==> |ps| == 19 * |u.jobs| + 1
    ensures Stuck(u, After(u, Init(u), ps)) ==> multiset(After(u, Init(u), ps).taken) == multiset(u.jobs)
  {
    hide Inv, Enabled, Step, Possible, ClientWork;
    var s := After(u, Init(u), ps);
    InitInv(u);
    RunKeepsInv(u, Init(u), ps);
    RunLength(u, Init(u), ps);
    InitWork(|u.jobs|);
    StepsBounded(u, s);
    assert Reachable(u, s);
    if Stuck(u, s) {
      StuckOnlyAtEnd(u, s);
      EndPrintsAll(u, s);
      NoWork(s.clients);
    }
    if |ps| == 19 * |u.jobs| + 1 {
      forall p ensures !Enabled(u, s, p) {
        if Enabled(u, s, p) {
          StepKeepsInv(u, s, p);
          StepsCount(u, s, p);
          StepsBounded(u, Step(u, s, p));
        }
      }
    }
  }

  // ----- what comes out of the printer -----

  /** The jobs announced in the course of a run: client number and pages at each message. */
  function Announced(u: Setup, s: State, ps: seq<Process>): seq<Job>
    requires Possible(u, s, ps)
    decreases |ps|
  {
    if ps == [] then []
    else
      (if ps[0].ThePrinter? && s.printer.pc == Print then [Job(s.printer.jobID, s.printer.jobPages)] else [])
      + Announced(u, Step(u, s, ps[0]), ps[1..])
  }

  /** How many messages there have been by the time of `s`. */
  function Messages(s: State): nat {
    s.released + if s.printer.pc == Turn || s.printer.pc == PostEmpty then 1 else 0
  }

  lemma MessageStep(u: Setup, s: State, p: Process)
    requires Inv(u, s) && Enabled(u, s, p)
    ensures Messages(s) <= |s.taken| && Messages(Step(u, s, p)) <= |Step(u, s, p).taken|
    ensures Step(u, s, p).taken[..Messages(Step(u, s, p))]
         == s.taken[..Messages(s)]
            + if p.ThePrinter? && s.printer.pc == Print then [Job(s.printer.jobID, s.printer.jobPages)] else []
  {
    hide MutexOK, TokensOK, StorerOK, SlotsOK, Slot, NextIndex;
  }

  lemma {:induction false} AnnouncedIs(u: Setup, s: State, ps: seq<Process>)
    requires Inv(u, s) && Possible(u, s, ps)
    ensures Messages(s) <= |s.taken| && Messages(After(u, s, ps)) <= |After(u, s, ps).taken|
    ensures s.taken[..Messages(s)] + Announced(u, s, ps) == After(u, s, ps).taken[..Messages(After(u, s, ps))]
    decreases |ps|
  {
    hide Enabled, Step, Messages, MutexOK, TokensOK, StorerOK, SlotsOK, Slot;
    if ps == [] {
      MessagesMade(u, s);
    } else {
      MessageStep(u, s, ps[0]);
      StepKeepsInv(u, s, ps[0]);
      AnnouncedIs(u, Step(u, s, ps[0]), ps[1..]);
    }
  }

  lemma MessagesMade(u: Setup, s: State)
    requires Inv(u, s)
    ensures Messages(s) <= |s.taken|
  {
    hide MutexOK, TokensOK, StorerOK, SlotsOK, Slot;
  }

  /**
   * What the printer announces in any run are the jobs of the clients in the order in which they claimed slots, each
   * once; in a run that cannot go on, all of them.
   */
  lemma AnnouncedInOrder(u: Setup, ps: seq<Process>)
    requires u.size > 0 && Possible(u, Init(u), ps)
    ensures var s, out := After(u, Init(u), ps), Announced(u, Init(u), ps);
            && |out| <= |s.claims|
            && (forall k | 0 <= k < |out| :: s.claims[k] < |u.jobs| && out[k] == u.jobs[s.claims[k]])
            && (forall j, k | 0 <= j < k < |s.claims| :: s.claims[j] != s.claims[k])
            && (Stuck(u, s) ==> multiset(out) == multiset(u.jobs))
  {
    hide Inv, Enabled, Step, Possible, Stuck, Announced, After, Init, Messages;
    var s, out := After(u, Init(u), ps), Announced(u, Init(u), ps);
    AnnouncedFromStart(u, ps);
    assert Reachable(u, s);
    PrintedInOrder(u, s);
    if Stuck(u, s) {
      StuckOnlyAtEnd(u, s);
      EndPrintsAll(u, s);
      EndMessages(s, |u.jobs|);
    }
  }

  lemma AnnouncedFromStart(u: Setup, ps: seq<Process>)
    requires u.size > 0 && Possible(u, Init(u), ps)
    ensures var s := After(u, Init(u), ps);
            Messages(s) <= |s.taken| && Announced(u, Init(u), ps) == s.taken[..Messages(s)]
  {
    hide Inv, Enabled, Step, Possible, Announced, After;
    InitInv(u);
    AnnouncedIs(u, Init(u), ps);
    assert Init(u).taken[..Messages(Init(u))] == [];
  }

  lemma EndMessages(s: State, n: nat)
    requires s.released == n == |s.taken| && s.printer.pc == AwaitFull
    ensures Messages(s) == n && s.taken[..n] == s.taken
  {
  }

  // ----- one call without interference -----

  /** Client `i` is on its way through put_a_job, begun in state `s0`, and nobody else has moved. */
  predicate Putting(u: Setup, s0: State, s: State, i: nat) {
    && i < |u.jobs| == |s.clients| && s0.empty > 0 && s0.mutex > 0
    && var r := Rank(s.clients[i].pc);
       && s.empty == s0.empty - (if r >= 2 then 1 else 0)
       && s.mutex == s0.mutex - (if 3 <= r <= 7 then 1 else 0)
       && s.full == s0.full + (if r == 9 then 1 else 0)
       && s.claims == s0.claims + (if r >= 5 then [i] else [])
       && s.released == s0.released
  }

  lemma PutBegins(u: Setup, s: State, i: nat)
    requires Inv(u, s) && i < |u.jobs| == |s.clients| && s.clients[i].pc == CheckEmpty && s.empty > 0 && s.mutex > 0
    ensures Putting(u, s, s, i) && s.released <= |s.claims|
  {
    hide MutexOK, ClaimsOK, StorerOK, SlotsOK, PrintedOK;
    ClaimBounds(u, s);
  }

  lemma PutStep(u: Setup, s0: State, s: State, i: nat)
    requires Putting(u, s0, s, i) && Inv(u, s) && s.clients[i].pc != Gone
    ensures Enabled(u, s, AClient(i)) && Putting(u, s0, ClientStep(u, s, i), i)
    ensures Rank(ClientStep(u, s, i).clients[i].pc) == Rank(s.clients[i].pc) + 1
  {
    hide MutexOK, TokensOK, ClaimsOK, StorerOK, SlotsOK, PrintedOK, NextIndex;
  }

  lemma PutDone(u: Setup, s0: State, s: State, i: nat)
    requires Putting(u, s0, s, i) && Inv(u, s) && s.clients[i].pc == Gone && s0.released <= |s0.claims|
    ensures Shaped(u, s) && s.claims == s0.claims + [i]
    ensures s.arr[|s0.claims| % u.size] == u.jobs[i].id && s.arr[|s0.claims| % u.size + u.size] == u.jobs[i].pages
    ensures s.full == s0.full + 1 && s.empty == s0.empty - 1 && s.mutex == s0.mutex
  {
    hide MutexOK, TokensOK, StorerOK, PrintedOK;
    assert SlotHolds(u, s, |s0.claims|);
  }
}

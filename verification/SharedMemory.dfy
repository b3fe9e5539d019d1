/** The shared memory segment and the processes working on it, updated in place one step at a time. */
module SharedMemory {
  import opened Spooler

  class Spool {
    const size: nat
    const jobs: seq<Job>
    var empty: nat
    var full: nat
    var mutex: nat
    var clientindex: nat
    var printerindex: nat
    /** First half the client numbers, second half the page counts. */
    const arr: array<int>
    /** Each client's place in its program, and its local copy of the index. */
    const clients: array<Client>
    var printer: Printer
    ghost var claims: seq<nat>
    ghost var taken: seq<Job>
    ghost var released: nat
    ghost var holder: Holder

    ghost predicate Linked() {
      size > 0 && arr.Length == 2 * size && clients.Length == |jobs| && (arr as object) != clients
      && (this as object) != arr && (this as object) != clients
    }

    ghost function U(): Setup {
      Setup(size, jobs)
    }

    /** The segment and the processes as a state of the transition system. */
    ghost function View(): State
      reads this, arr, clients
    {
      State(empty, full, mutex, clientindex, printerindex, arr[..], clients[..], printer, claims, taken, released,
          holder)
    }

    /** Starting the printer: empty slots, semaphores at 0, the number of slots, and 1. */
    constructor (slots: nat, work: seq<Job>)
      requires slots > 0
      ensures Linked() && size == slots && jobs == work && fresh(arr) && fresh(clients)
      ensures View() == Init(U()) && Inv(U(), View())
      ensures empty == slots && full == 0 && mutex == 1 && clientindex == printerindex == 0
      ensures forall k | 0 <= k < 2 * slots :: arr[k] == -1
    {
      size, jobs := slots, work;
      clientindex, printerindex := 0, 0;
      full, empty, mutex := 0, slots, 1;
      arr := new int[2 * slots];
      clients := new Client[|work|](_ => Client(CheckEmpty, 0));
      printer := Printer(CheckFull, 0, 0, 0);
      claims, taken, released, holder := [], [], 0, Nobody;
      new;
      for i := 0 to 2 * size
        invariant forall k | 0 <= k < i :: arr[k] == -1
        invariant clients[..] == Init(U()).clients
        invariant View().(arr := []) == Init(U()).(arr := [])
      {
        arr[i] := -1;
      }
      assert arr[..] == Init(U()).arr;
      InitInv(U());
    }

    /** Client `i` executes its next statement. */
    method ClientMoves(i: nat)
      requires Linked() && Enabled(U(), View(), AClient(i))
      modifies this, arr, clients
      ensures View() == ClientStep(U(), old(View()), i)
    {
      var c := clients[i];
      match c.pc {
        case CheckEmpty =>
          clients[i] := c.(pc := WaitEmpty);
        case WaitEmpty =>
          empty := empty - 1;
          clients[i] := c.(pc := WaitMutex);
        case WaitMutex =>
          mutex := mutex - 1;
          holder := ByClient(i);
          clients[i] := c.(pc := ReadIndex);
        case ReadIndex =>
          clients[i] := Client(Advance, clientindex);
        case Advance =>
          if clientindex == size - 1 {
            clientindex := 0;
          } else {
            clientindex := clientindex + 1;
          }
          claims := claims + [i];
          clients[i] := c.(pc := StoreId);
        case StoreId =>
          arr[c.temp] := jobs[i].id;
          clients[i] := c.(pc := StorePages);
        case StorePages =>
          arr[c.temp + size] := jobs[i].pages;
          clients[i] := c.(pc := PostMutex);
        case PostMutex =>
          mutex := mutex + 1;
          holder := Nobody;
          clients[i] := c.(pc := PostFull);
        case PostFull =>
          full := full + 1;
          clients[i] := c.(pc := Gone);
      }
    }

    /** The printer executes its next statement. */
    method PrinterMoves()
      requires Linked() && Enabled(U(), View(), ThePrinter)
      modifies this
      ensures View() == PrinterStep(U(), old(View()))
      ensures old(printer.pc) == ReadId ==> printer.jobID == old(arr[printer.position])
      ensures old(printer.pc) == ReadPages ==> printer.jobPages == old(arr[printer.position + size])
      ensures Inv(U(), old(View())) ==> Inv(U(), View())
      ensures Inv(U(), old(View())) && printer.pc in {Print, Turn, PostEmpty} ==> PrintsClaim(U(), View())
    {
      hide Inv, PrintsClaim;
      ghost var s := View();
      match printer.pc {
        case CheckFull =>
          printer := printer.(pc := AwaitFull);
        case AwaitFull =>
          full := full - 1;
          printer := printer.(pc := AwaitMutex);
        case AwaitMutex =>
          mutex := mutex - 1;
          holder := ByPrinter;
          printer := printer.(pc := ReadPosition);
        case ReadPosition =>
          printer := printer.(pc := ReadId, position := printerindex);
        case ReadId =>
          printer := printer.(pc := ReadPages, jobID := arr[printer.position]);
        case ReadPages =>
          printer := printer.(pc := LeaveMutex, jobPages := arr[printer.position + size]);
          taken := taken + [Job(printer.jobID, printer.jobPages)];
        case LeaveMutex =>
          mutex := mutex + 1;
          holder := Nobody;
          printer := printer.(pc := Print);
        case Print =>
          printer := printer.(pc := Turn);
        case Turn =>
          if printerindex == size - 1 {
            printerindex := 0;
          } else {
            printerindex := printerindex + 1;
          }
          printer := printer.(pc := PostEmpty);
        case PostEmpty =>
          empty := empty + 1;
          released := released + 1;
          printer := printer.(pc := CheckFull);
      }
      if Inv(U(), s) {
        StepKeepsInv(U(), s, ThePrinter);
        if printer.pc in {Print, Turn, PostEmpty} {
          PrintedNow(U(), View());
        }
      }
    }

    /** The processes take turns as `schedule` says. */
    method Interleave(schedule: seq<Process>)
      requires Linked() && Inv(U(), View()) && Possible(U(), View(), schedule)
      modifies this, arr, clients
      ensures View() == After(U(), old(View()), schedule) && Inv(U(), View())
    {
      hide Inv, Enabled, ClientStep, PrinterStep;
      if schedule != [] {
        StepKeepsInv(U(), View(), schedule[0]);
        match schedule[0] {
          case AClient(i) => ClientMoves(i);
          case ThePrinter => PrinterMoves();
        }
        Interleave(schedule[1..]);
      }
    }

    /** put_a_job without interference: there is a free slot and nobody is inside. */
    method PutAJob(i: nat)
      requires Linked() && Inv(U(), View()) && i < |jobs| && clients[i].pc == CheckEmpty && empty > 0 && mutex > 0
      modifies this, arr, clients
      ensures Inv(U(), View()) && claims == old(claims) + [i] && clients[i].pc == Gone
      ensures full == old(full) + 1 && empty == old(empty) - 1 && mutex == old(mutex)
      ensures var k := |old(claims)| % size;
              k + size < arr.Length && arr[k] == jobs[i].id && arr[k + size] == jobs[i].pages
    {
      hide Inv, Enabled, ClientStep, Slot, SlotHolds;
      ghost var s0 := View();
      PutBegins(U(), s0, i);
      while clients[i].pc != Gone
        invariant Inv(U(), View()) && Putting(U(), s0, View(), i)
        decreases 9 - Rank(clients[i].pc)
      {
        PutStep(U(), s0, View(), i);
        StepKeepsInv(U(), View(), AClient(i));
        ClientMoves(i);
      }
      PutDone(U(), s0, View(), i);
    }
  }
}

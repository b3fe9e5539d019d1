/** The shell's history: a ring of ten slots indexed by command number, against the log of everything accepted. */
module History {

  const SLOTS: nat := 10

  /** One line of input: its words, `&`, what atoi makes of the first word, and how running it turns out. */
  datatype Input = Input(words: seq<string>, background: bool, number: int, builtin: bool, failed: bool)

  /** An accepted command. */
  datatype Entry = Entry(words: seq<string>, background: bool, error: bool)

  /** A slot of the ring; the words are gone once it has been freed. */
  datatype Slot = Slot(words: seq<string>, errorflag: bool, numofcmd: nat, ifbg: bool)

  const FREED := Slot([], false, 0, false)

  /** A line has a first word, and no builtin is called by a number. */
  predicate Sensible(x: Input) {
    x.words != [] && (x.builtin ==> x.number == 0)
  }

  /** The error flag of a command that has been run: only a foreground child reports. */
  function Flag(background: bool, failed: bool): bool {
    !background && failed
  }

  /**
   * What the shell does to the log: the next number is `|log| + 1`. A recall replays the entry it names if that is one
   * of the last nine and ran without error; the tenth number it accepts replays nothing at all.
   */
  function Accept(log: seq<Entry>, x: Input): seq<Entry> {
    var n, next := x.number, |log| + 1;
    if n == 0 then log + [Entry(x.words, x.background, !x.builtin && Flag(x.background, x.failed))]
    else if n >= next || n < next - SLOTS || n < 1 then log
    else if n == next - SLOTS then log + [Entry([], false, x.failed)]
    else if log[n - 1].error then log
    else log + [Entry(log[n - 1].words, log[n - 1].background, Flag(log[n - 1].background, x.failed))]
  }

  /** What it is meant to do: replay any of the last ten. */
  function Intended(log: seq<Entry>, x: Input): seq<Entry> {
    var n, next := x.number, |log| + 1;
    if n == 0 then log + [Entry(x.words, x.background, !x.builtin && Flag(x.background, x.failed))]
    else if n >= next || n < next - SLOTS || n < 1 || log[n - 1].error then log
    else log + [Entry(log[n - 1].words, log[n - 1].background, Flag(log[n - 1].background, x.failed))]
  }

  /**
   * The shell does what is meant except for the tenth number back, and even then if what that command would replay is
   * just what is run in its place: no words, in the foreground, without an error.
   */
  lemma IntendedIff(log: seq<Entry>, x: Input)
    ensures Accept(log, x) == Intended(log, x)
       <==> !(&& x.number >= 1 && x.number == |log| + 1 - SLOTS
              && log[x.number - 1] != Entry([], false, false))
  {
    var n := x.number;
    if n >= 1 && n == |log| + 1 - SLOTS {
      var e := log[n - 1];
      assert Accept(log, x)[|log|] == Entry([], false, x.failed);
      if !e.error {
        assert Intended(log, x)[|log|] == Entry(e.words, e.background, Flag(e.background, x.failed));
      }
    }
  }

  /** Ten commands, then the number of the first: an empty command is run in its place. */
  lemma TenthIsBlank(e: Entry, x: Input)
    requires x.number == 1 && e.words != [] && !e.error
    ensures var log := [e, e, e, e, e, e, e, e, e, e];
            Accept(log, x) == log + [Entry([], false, x.failed)] && Accept(log, x) != Intended(log, x)
  {
    var log := [e, e, e, e, e, e, e, e, e, e];
    assert Accept(log, x)[10].words == [];
    assert Intended(log, x)[10].words == e.words;
  }

  /** Where command number `k` is kept. */
  function Place(k: nat): (p: nat)
    ensures p < SLOTS
  {
    (k + SLOTS - 1) % SLOTS
  }

  /** The slot of an accepted command. */
  function Kept(e: Entry, k: nat): Slot {
    Slot(e.words, e.error, k, e.background)
  }

  /** The ring holds the last nine commands, each at its place. */
  predicate Holds(ring: seq<Slot>, log: seq<Entry>) {
    |ring| == SLOTS && forall k: nat | |log| < k + SLOTS - 1 && 1 <= k <= |log| :: ring[Place(k)] == Kept(log[k - 1], k)
  }

  lemma PlaceIs(k: nat)
    requires k >= 1
    ensures Place(k) == (k - 1) % 10
  {
  }

  /** A slot rewritten for the next number leaves the last nine alone. */
  lemma NextPlaceIsFree(log: seq<Entry>, k: nat)
    requires |log| < k + SLOTS - 1 && 1 <= k <= |log|
    ensures Place(k) != Place(|log| + 1)
  {
  }

  /** Whatever is put in the next place, the last nine are still there. */
  lemma HoldsStill(ring: seq<Slot>, log: seq<Entry>, slot: Slot)
    requires Holds(ring, log)
    ensures Place(|log| + 1) < |ring| && Holds(ring[Place(|log| + 1) := slot], log)
  {
    var ring' := ring[Place(|log| + 1) := slot];
    forall k: nat | |log| < k + SLOTS - 1 && 1 <= k <= |log| ensures ring'[Place(k)] == Kept(log[k - 1], k) {
      NextPlaceIsFree(log, k);
    }
  }

  /** An accepted command goes to the next place. */
  lemma HoldsNext(ring: seq<Slot>, log: seq<Entry>, e: Entry)
    requires |ring| == SLOTS && Holds(ring, log) && ring[Place(|log| + 1)] == Kept(e, |log| + 1)
    ensures Holds(ring, log + [e])
  {
    var log' := log + [e];
    forall k: nat | |log'| < k + SLOTS - 1 && 1 <= k <= |log'| ensures ring[Place(k)] == Kept(log'[k - 1], k) {
      if k <= |log| {
        assert log'[k - 1] == log[k - 1];
      }
    }
  }

  /** The slot a recall reads: one of the last nine, or the one just freed. */
  lemma Recalled(ring: seq<Slot>, log: seq<Entry>, n: nat)
    requires Holds(ring, log) && 1 <= n <= |log| < n + SLOTS
    ensures (n - 1) % 10 == Place(n) < |ring|
    ensures n + SLOTS - 1 == |log| ==> Place(n) == Place(|log| + 1)
    ensures n + SLOTS - 1 > |log| ==> ring[Place(n)] == Kept(log[n - 1], n) && Place(n) != Place(|log| + 1)
  {
  }

  /** The log after a session. */
  function LogAfter(log: seq<Entry>, inputs: seq<Input>): seq<Entry>
    decreases |inputs|
  {
    if inputs == [] then log else LogAfter(Accept(log, inputs[0]), inputs[1..])
  }

  /** Numbers are never reused: the log only grows, whatever is recalled or rejected. */
  lemma {:induction false} LogGrows(log: seq<Entry>, inputs: seq<Input>)
    ensures log <= LogAfter(log, inputs)
    decreases |inputs|
  {
    if inputs != [] {
      LogGrows(Accept(log, inputs[0]), inputs[1..]);
    }
  }

  /** No background command is ever flagged: nobody waits for it. */
  lemma {:induction false} BackgroundUnflagged(log: seq<Entry>, inputs: seq<Input>)
    requires forall e | e in log && e.background :: !e.error
    ensures forall e | e in LogAfter(log, inputs) && e.background :: !e.error
    decreases |inputs|
  {
    if inputs != [] {
      BackgroundUnflagged(Accept(log, inputs[0]), inputs[1..]);
    }
  }

  lemma BackgroundUnflaggedIf(log: seq<Entry>, inputs: seq<Input>)
    ensures (forall e | e in log && e.background :: !e.error) ==>
              forall e | e in LogAfter(log, inputs) && e.background :: !e.error
  {
    if forall e | e in log && e.background :: !e.error {
      BackgroundUnflagged(log, inputs);
    }
  }

  /** So a background command, however it turned out, can be recalled as long as it is one of the last nine. */
  lemma BackgroundRecall(inputs: seq<Input>, x: Input)
    requires var log := LogAfter([], inputs);
             1 <= x.number <= |log| < x.number + SLOTS - 1 && log[x.number - 1].background
    ensures var log := LogAfter([], inputs);
            LogAfter([], inputs + [x]) == log + [Entry(log[x.number - 1].words, true, false)]
  {
    BackgroundUnflagged([], inputs);
    LogSnoc([], inputs, x);
  }

  lemma {:induction false} LogSnoc(log: seq<Entry>, inputs: seq<Input>, x: Input)
    ensures LogAfter(log, inputs + [x]) == Accept(LogAfter(log, inputs), x)
    decreases |inputs|
  {
    if inputs == [] {
      assert [] + [x] == [x];
    } else {
      assert (inputs + [x])[1..] == inputs[1..] + [x];
      LogSnoc(Accept(log, inputs[0]), inputs[1..], x);
    }
  }

  /** Whatever runs was typed as a command at some time, except for the commands without words. */
  lemma {:induction false} WordsTyped(log: seq<Entry>, inputs: seq<Input>)
    ensures forall e | e in LogAfter(log, inputs) && e.words != [] ::
              (exists d :: d in log && d.words == e.words)
              || (exists x :: x in inputs && x.number == 0 && x.words == e.words)
    decreases |inputs|
  {
    if inputs != [] {
      var x, rest := inputs[0], inputs[1..];
      var next := Accept(log, x);
      WordsTyped(next, rest);
      forall e | e in LogAfter(log, inputs) && e.words != []
        ensures (exists d :: d in log && d.words == e.words)
             || (exists y :: y in inputs && y.number == 0 && y.words == e.words)
      {
        if d :| d in next && d.words == e.words {
          OneTyped(log, x, d);
        }
      }
    }
  }

  lemma OneTyped(log: seq<Entry>, x: Input, d: Entry)
    requires d in Accept(log, x) && d.words != []
    ensures (x.number == 0 && x.words == d.words) || exists c :: c in log && c.words == d.words
  {
    if d !in log && x.number != 0 {
      assert log[x.number - 1] in log;
    }
  }

  class Shell {
    var counter: nat
    var commandposition: nat
    const history: array<Slot>
    ghost var log: seq<Entry>

    /** The counter is the length of the log, and the ring holds its last nine commands. */
    ghost predicate Valid()
      reads this, history
    {
      history.Length == SLOTS && counter == |log| && Holds(history[..], log)
    }

    constructor ()
      ensures Valid() && log == [] && counter == 0 && fresh(history)
      ensures forall k | 0 <= k < SLOTS :: history[k] == Slot([], false, 0, false)
    {
      counter, commandposition, log := 0, 0, [];
      history := new Slot[SLOTS](_ => FREED);
    }

    /** Clears one slot. */
    method FreeHistory(position: nat)
      requires position < history.Length
      modifies history
      ensures history[..] == old(history[..])[position := Slot([], false, 0, false)]
    {
      history[position] := history[position].(errorflag := false);
      history[position] := history[position].(numofcmd := 0);
      history[position] := history[position].(ifbg := false);
      history[position] := history[position].(words := []);
    }

    /** Stores a command in the current slot. */
    method StrArgs(ifbg: bool, number: nat, words: seq<string>)
      requires commandposition < history.Length
      modifies history
      ensures var p := commandposition;
              history[..] == old(history[..])[p := Slot(words, old(history[p]).errorflag, number, ifbg)]
    {
      history[commandposition] := history[commandposition].(numofcmd := number);
      history[commandposition] := history[commandposition].(ifbg := ifbg);
      history[commandposition] := history[commandposition].(words := words);
    }

    /** A recall: the counter is rolled back when it is refused. */
    method RunHistory(ifhistory: int) returns (runexec: bool)
      requires history.Length == SLOTS && counter == |log| + 1 && commandposition == Place(counter)
      requires Holds(history[..], log) && !history[commandposition].errorflag && ifhistory != 0
      modifies this`counter, history
      ensures Holds(history[..], log) && |history[..]| == SLOTS
      ensures var x := Input([], false, ifhistory, false, false);
              && runexec == (Accept(log, x) != log)
              && counter == |Accept(log, x)|
              && (runexec ==> history[commandposition] == Kept(Accept(log, x)[|log|], counter))
              && (!runexec ==> history[commandposition] == Slot([], false, 0, false))
    {
      hide Holds, Place;
      ghost var was := history[..];
      if ifhistory >= counter || ifhistory < counter - 10 || ifhistory < 1 {
        FreeHistory(commandposition);
        counter := counter - 1;
        runexec := false;
      } else {
        var originindex := (ifhistory - 1) % 10;
        Recalled(was, log, ifhistory);
        history[commandposition] := history[commandposition].(errorflag := history[originindex].errorflag);
        if history[commandposition].errorflag {
          FreeHistory(commandposition);
          counter := counter - 1;
          runexec := false;
        } else {
          FreeHistory(commandposition);
          StrArgs(history[originindex].ifbg, counter, history[originindex].words);
          runexec := true;
        }
      }
      HoldsStill(was, log, history[commandposition]);
      assert history[..] == was[commandposition := history[commandposition]];
    }

    /** Takes the next number for a line and stores it in the next place. */
    method Enter(x: Input)
      requires Valid()
      modifies this`counter, this`commandposition, history
      ensures counter == |log| + 1 && commandposition == Place(counter) < history.Length && Holds(history[..], log)
      ensures history[commandposition] == Slot(x.words, false, counter, x.background)
    {
      hide Holds, Place;
      ghost var was := history[..];
      commandposition := counter % 10;
      counter := counter + 1;
      PlaceIs(counter);
      FreeHistory(commandposition);
      StrArgs(x.background, counter, x.words);
      HoldsStill(was, log, history[commandposition]);
      assert history[..] == was[commandposition := history[commandposition]];
    }

    /** Runs the current command; a foreground child reports whether it failed. */
    method Execute(failed: bool)
      requires history.Length == SLOTS && commandposition == Place(|log| + 1) && Holds(history[..], log)
      modifies history
      ensures Holds(history[..], log)
      ensures history[..] == old(history[..])[commandposition := history[commandposition]]
      ensures var slot := old(history[commandposition]);
              history[commandposition] == if slot.ifbg then slot else slot.(errorflag := failed)
    {
      hide Holds, Place;
      ghost var was := history[..];
      if !history[commandposition].ifbg {
        history[commandposition] := history[commandposition].(errorflag := failed);
      }
      HoldsStill(was, log, history[commandposition]);
      assert history[..] == was[commandposition := history[commandposition]];
    }

    /** The ring, entry by entry. */
    lemma RingIs()
      requires Valid()
      ensures counter == |log| && history.Length == SLOTS
      ensures forall j | 0 <= j < |log| <= j + 9 ::
                history[j % 10] == Slot(log[j].words, log[j].error, j + 1, log[j].background)
    {
      forall j | 0 <= j < |log| <= j + 9
        ensures history[j % 10] == Slot(log[j].words, log[j].error, j + 1, log[j].background)
      {
        PlaceIs(j + 1);
        assert history[..][Place(j + 1)] == Kept(log[j], j + 1);
      }
    }

    /**
     * One turn of the command loop. A line that is not a number is logged as typed, flagged when it was run in the
     * foreground and failed. A number of one of the last nine replays that command, unless it is flagged; nine back
     * and one more replays nothing; any other number is refused, uses up no number and leaves its slot empty.
     */
    method Command(x: Input)
      requires Valid() && Sensible(x)
      modifies this, history
      ensures Valid() && log == Accept(old(log), x) && counter == |log|
      ensures x.number == 0 ==>
                log == old(log) + [Entry(x.words, x.background, !x.builtin && !x.background && x.failed)]
      ensures x.number >= 1 && x.number <= |old(log)| < x.number + 9 && !old(log)[x.number - 1].error ==>
                var e := old(log)[x.number - 1];
                log == old(log) + [Entry(e.words, e.background, !e.background && x.failed)]
      ensures x.number >= 1 && x.number <= |old(log)| < x.number + 9 && old(log)[x.number - 1].error ==> log == old(log)
      ensures x.number >= 1 && |old(log)| == x.number + 9 ==> log == old(log) + [Entry([], false, x.failed)]
      ensures x.number < 0 || x.number > |old(log)| || (x.number != 0 && |old(log)| > x.number + 9) ==> log == old(log)
      ensures log == old(log) ==> history[|log| % 10] == Slot([], false, 0, false)
      ensures forall j | 0 <= j < |log| <= j + 9 ::
                history[j % 10] == Slot(log[j].words, log[j].error, j + 1, log[j].background)
    {
      hide Holds, Place;
      Enter(x);
      var nohistoryerror := true;
      if x.number != 0 {
        nohistoryerror := RunHistory(x.number);
      }
      if nohistoryerror {
        if !x.builtin {
          Execute(x.failed);
        }
        HoldsNext(history[..], log, Accept(log, x)[|log|]);
      } else {
        PlaceIs(|log| + 1);
      }
      log := Accept(log, x);
      RingIs();
    }

    /** A whole session: the ring agrees with the log after every input, and no background command is flagged. */
    method Session(inputs: seq<Input>)
      requires Valid() && forall i | 0 <= i < |inputs| :: Sensible(inputs[i])
      modifies this, history
      ensures Valid() && log == LogAfter(old(log), inputs) && counter == |log|
      ensures (forall e | e in old(log) && e.background :: !e.error) ==>
                forall e | e in log && e.background :: !e.error
      ensures forall j | 0 <= j < |log| <= j + 9 ::
                history[j % 10] == Slot(log[j].words, log[j].error, j + 1, log[j].background)
      decreases |inputs|
    {
      hide Holds, Accept;
      if inputs == [] {
        RingIs();
      } else {
        BackgroundUnflaggedIf(log, inputs);
        Command(inputs[0]);
        Session(inputs[1..]);
      }
    }
  }

  /** Ten times the same command, then the number of the first: the shell ends up with a command without words. */
  method BlankRecall() returns (shell: Shell)
    ensures shell.Valid() && |shell.log| == SLOTS + 1
    ensures shell.log[0].words == ["ls"] && !shell.log[0].error && shell.log[SLOTS].words == []
  {
    hide Holds, Intended;
    shell := new Shell();
    for k := 0 to SLOTS
      invariant shell.Valid() && |shell.log| == k && fresh(shell) && fresh(shell.history)
      invariant forall e | e in shell.log :: e == Entry(["ls"], false, false)
    {
      shell.Command(Input(["ls"], false, 0, false, false));
    }
    assert shell.log[0] in shell.log;
    shell.Command(Input(["1"], false, 1, false, false));
  }
}

/** How a bench command ends (scripts/cuda_bench_cli.py: `_commit_terminal`, `_on_command_signal`,
    `_snapshot_pending_signal`, `_exit_status`, `_run_command`).

    First the commit itself, as code on the process's globals; then every interleaving of signals
    with the steps of a command, as a state machine. */
module TerminalCommit {
  import opened Wrappers

  datatype Sig = SIGINT | SIGTERM

  function Number(s: Sig): nat {
    match s case SIGINT => 2 case SIGTERM => 15
  }

  datatype Status = Ok | Refused | Failed

  datatype Outcome = InvocationInvalid | Interrupted | CleanupIncomplete | ProviderUncertain | Other(text: string)

  /** Window id, artifact reference and artifact digest of a result. */
  datatype Binding = Binding(window: Option<string>, artifact: Option<string>, digest: Option<string>)

  const NOTHING := Binding(None, None, None)

  datatype Result = Result(status: Status, outcome: Outcome, binding: Binding)

  function ExitStatus(r: Result, sig: Option<Sig>): nat {
    if sig.Some? then 128 + Number(sig.value)
    else if r.outcome == InvocationInvalid then 2
    else if r.status == Ok then 0
    else if r.status == Refused then 3
    else 4
  }

  /** SIGTERM before SIGINT. */
  function Preferred(sigs: set<Sig>): Option<Sig> {
    if SIGTERM in sigs then Some(SIGTERM) else if SIGINT in sigs then Some(SIGINT) else None
  }

  /** Everything a commit looks at once signals are blocked. `current` is the fresh check of the
      latched receipt on disk; `carried` are signals already taken as interruptions. */
  datatype Choice = Choice(
    result: Result,
    fallback: Option<Result>,
    sigs: set<Sig>,
    latch: Option<Result>,
    current: bool,
    cleanup: bool)

  function Latched(c: Choice): Result {
    if c.latch.None? then c.result
    else if c.current then c.latch.value
    else Result(Failed, ProviderUncertain, if c.fallback.None? then NOTHING else c.fallback.value.binding)
  }

  function Selected(c: Choice): Option<Sig> {
    if c.latch.Some? || c.cleanup || Latched(c).outcome == CleanupIncomplete then None else Preferred(c.sigs)
  }

  /** The line a commit prints and the code it returns. */
  function Line(c: Choice): Result {
    if Selected(c).None? then Latched(c)
    else Result(Refused, Interrupted, (if c.fallback.None? then c.result else c.fallback.value).binding)
  }

  function Code(c: Choice): nat {
    ExitStatus(Line(c), Selected(c))
  }

  // ----- the code -----------------------------------------------------------------------------------

  class Process {
    var committed: bool
    var cleanup: bool
    var latch: Option<Result>
    var blocked: bool
    var pending: set<Sig>
    var out: seq<Result>

    constructor ()
      ensures !committed && !cleanup && latch.None? && !blocked && pending == {} && out == []
    {
      committed, cleanup, latch, blocked, pending, out := false, false, None, false, {}, [];
    }

    /** The handler: silent once the end is settled, otherwise an interruption. It raises exactly when
        delivering the signal takes the state machine out of the command's body. */
    method OnCommandSignal(sig: Sig) returns (raised: Option<Sig>)
      ensures raised == None || raised == Some(sig)
      ensures raised.None? <==> committed || cleanup || latch.Some?
      ensures forall b :: raised.None? <==>
        Next(State(Body, {sig}, committed, cleanup, latch, out), Deliver(sig, false, b)).pc.Body?
    {
      if committed || cleanup || latch.Some? {
        return None;
      }
      raised := Some(sig);
    }

    /** Pick among the pending and the explicit signals, then drain what is pending. */
    method SnapshotPendingSignal(explicit: Option<Sig>) returns (selected: Option<Sig>)
      modifies this`pending
      ensures selected == Preferred(old(pending) + if explicit.Some? then {explicit.value} else {})
      ensures selected == Some(SIGTERM) <==> SIGTERM in old(pending) || explicit == Some(SIGTERM)
      ensures selected == Some(SIGINT) <==>
        && SIGTERM !in old(pending) && explicit != Some(SIGTERM)
        && (SIGINT in old(pending) || explicit == Some(SIGINT))
      ensures pending == {}
    {
      var seen := pending;
      if explicit.Some? {
        seen := seen + {explicit.value};
      }
      selected := if SIGTERM in seen then Some(SIGTERM) else None;
      if selected.None? && SIGINT in seen {
        selected := Some(SIGINT);
      }
      while pending != {}
        decreases pending
      {
        var sig :| sig in pending;
        pending := pending - {sig};
      }
    }

    /** `caught` are the interruptions that hit the attempts to block signals; `checks` is whether
        the latched receipt is still on disk as it was; `writes` is whether stdout takes the line. */
    method CommitTerminal(result: Result, interrupted: Option<Sig>, fallback: Option<Result>,
                          caught: seq<Sig>, checks: bool, writes: bool) returns (code: nat)
      requires !blocked
      modifies this
      ensures committed && !blocked && pending == {}
      ensures cleanup == old(cleanup) && latch == old(latch)
      ensures var sigs := old(pending) + AsSet(interrupted, caught);
        var c := Choice(result, fallback, sigs, old(latch), checks, old(cleanup));
        && out == old(out) + (if writes then [Line(c)] else [])
        && code == if writes then Code(c) else 4
      // Spelled out. Signals count when nothing durable is latched and no cleanup was left incomplete.
      ensures var counts := old(latch).None? && !old(cleanup) && result.outcome != CleanupIncomplete;
        var sigterm := SIGTERM in old(pending) || interrupted == Some(SIGTERM) || SIGTERM in caught;
        var sigint := SIGINT in old(pending) || interrupted == Some(SIGINT) || SIGINT in caught;
        && (code == 143 <==> writes && counts && sigterm)
        && (code == 130 <==> writes && counts && !sigterm && sigint)
        && (writes && !(counts && (sigterm || sigint)) ==>
             var line := out[|old(out)|];
             && (code == 2 <==> line.outcome == InvocationInvalid)
             && (code == 0 <==> line.outcome != InvocationInvalid && line.status == Ok)
             && (code == 3 <==> line.outcome != InvocationInvalid && line.status == Refused)
             && (code == 4 <==> line.outcome != InvocationInvalid && line.status == Failed))
        && (!writes ==> code == 4 && out == old(out))
        && (writes ==>
             && |out| == |old(out)| + 1 && out[..|old(out)|] == old(out)
             && out[|old(out)|] ==
                  if counts && (sigterm || sigint)
                    then Result(Refused, Interrupted, if fallback.Some? then fallback.value.binding else result.binding)
                  else if old(latch).None? then result
                  else if checks then old(latch).value
                  else Result(Failed, ProviderUncertain, if fallback.Some? then fallback.value.binding else NOTHING))
    {
      committed := false;
      var line, selected := SettleLine(result, interrupted, fallback, caught, checks);
      code := ExitStatus(line, selected);
      if writes {
        out := out + [line];
      } else {
        code := 4;
      }
      committed := true;
      blocked := false;
      CommitSpelledOut(result, interrupted, fallback, caught, old(pending), latch, cleanup, checks, writes,
                       old(out), out, code);
    }

    /** Block signals, take up those that are pending, and settle line and signal. */
    method SettleLine(result: Result, interrupted: Option<Sig>, fallback: Option<Result>, caught: seq<Sig>,
                      checks: bool)
      returns (line: Result, selected: Option<Sig>)
      requires !blocked
      modifies this`blocked, this`pending
      ensures blocked && pending == {}
      ensures var c := Choice(result, fallback, old(pending) + AsSet(interrupted, caught), latch, checks, cleanup);
        line == Line(c) && selected == Selected(c)
    {
      var preblock: set<Sig> := {};
      if interrupted.Some? {
        preblock := {interrupted.value};
      }
      for k := 0 to |caught|
        invariant preblock == AsSet(interrupted, caught[..k])
      {
        preblock := preblock + {caught[k]};
        assert caught[..k + 1] == caught[..k] + [caught[k]];
      }
      assert caught[..|caught|] == caught;
      blocked := true;
      var explicit := if SIGTERM in preblock then Some(SIGTERM) else if SIGINT in preblock then Some(SIGINT) else None;
      selected := SnapshotPendingSignal(explicit);
      var final, binding := result, fallback;
      if latch.Some? && checks {
        final, binding, selected := latch.value, None, None;
      } else if latch.Some? {
        final := Result(Failed, ProviderUncertain, if binding.None? then NOTHING else binding.value.binding);
        binding, selected := None, None;
      }
      if cleanup || final.outcome == CleanupIncomplete {
        selected := None;
      }
      line := final;
      if selected.Some? {
        line := Result(Refused, Interrupted, (if binding.None? then final else binding.value).binding);
      }
    }
  }

  function AsSet(one: Option<Sig>, many: seq<Sig>): set<Sig> {
    (if one.Some? then {one.value} else {}) + set k | 0 <= k < |many| :: many[k]
  }

  lemma AsSetMeans(one: Option<Sig>, many: seq<Sig>)
    ensures forall x :: x in AsSet(one, many) <==> one == Some(x) || x in many
  {
    forall x ensures x in AsSet(one, many) <==> one == Some(x) || x in many {
      assert x in many <==> exists k :: 0 <= k < |many| && many[k] == x;
    }
  }

  /** The line of a commit and its exit code, spelled out. */
  lemma CodeMeans(c: Choice)
    ensures var counts := c.latch.None? && !c.cleanup && c.result.outcome != CleanupIncomplete;
      && (Code(c) == 143 <==> counts && SIGTERM in c.sigs)
      && (Code(c) == 130 <==> counts && SIGTERM !in c.sigs && SIGINT in c.sigs)
      && (counts && c.sigs != {} ==>
            Line(c) == Result(Refused, Interrupted,
                              if c.fallback.Some? then c.fallback.value.binding else c.result.binding))
      && (!(counts && c.sigs != {}) ==>
            && Line(c) ==
                 (if c.latch.None? then c.result
                  else if c.current then c.latch.value
                  else Result(Failed, ProviderUncertain,
                              if c.fallback.Some? then c.fallback.value.binding else NOTHING))
            && (Code(c) == 2 <==> Line(c).outcome == InvocationInvalid)
            && (Code(c) == 0 <==> Line(c).outcome != InvocationInvalid && Line(c).status == Ok)
            && (Code(c) == 3 <==> Line(c).outcome != InvocationInvalid && Line(c).status == Refused)
            && (Code(c) == 4 <==> Line(c).outcome != InvocationInvalid && Line(c).status == Failed))
  {
    if c.sigs != {} {
      var x :| x in c.sigs;
      assert x == SIGTERM || x == SIGINT;
    }
  }

  lemma CommitSpelledOut(result: Result, interrupted: Option<Sig>, fallback: Option<Result>, caught: seq<Sig>,
                         pending: set<Sig>, latch: Option<Result>, cleanup: bool, checks: bool, writes: bool,
                         before: seq<Result>, out: seq<Result>, code: nat)
    requires var c := Choice(result, fallback, pending + AsSet(interrupted, caught), latch, checks, cleanup);
      && out == before + (if writes then [Line(c)] else [])
      && code == if writes then Code(c) else 4
    ensures var counts := latch.None? && !cleanup && result.outcome != CleanupIncomplete;
      var sigterm := SIGTERM in pending || interrupted == Some(SIGTERM) || SIGTERM in caught;
      var sigint := SIGINT in pending || interrupted == Some(SIGINT) || SIGINT in caught;
      && (code == 143 <==> writes && counts && sigterm)
      && (code == 130 <==> writes && counts && !sigterm && sigint)
      && (writes && !(counts && (sigterm || sigint)) ==>
           var line := out[|before|];
           && (code == 2 <==> line.outcome == InvocationInvalid)
           && (code == 0 <==> line.outcome != InvocationInvalid && line.status == Ok)
           && (code == 3 <==> line.outcome != InvocationInvalid && line.status == Refused)
           && (code == 4 <==> line.outcome != InvocationInvalid && line.status == Failed))
      && (!writes ==> code == 4 && out == before)
      && (writes ==>
           && |out| == |before| + 1 && out[..|before|] == before
           && out[|before|] ==
                if counts && (sigterm || sigint)
                  then Result(Refused, Interrupted, if fallback.Some? then fallback.value.binding else result.binding)
                else if latch.None? then result
                else if checks then latch.value
                else Result(Failed, ProviderUncertain, if fallback.Some? then fallback.value.binding else NOTHING))
  {
    var c := Choice(result, fallback, pending + AsSet(interrupted, caught), latch, checks, cleanup);
    AsSetMeans(interrupted, caught);
    CodeMeans(c);
  }

  // ----- interleavings --------------------------------------------------------------------------------

  /** A commit that has started but not yet blocked signals; `carried` are the interruptions it
      already knows. */
  datatype Commit = Commit(result: Result, fallback: Option<Result>, carried: set<Sig>)

  /** Where the command is. `level` counts the exception handlers that have caught an interruption
      of a commit: 0 inside the command, 1 its outer handler, 2 the handler of main. */
  datatype Pc =
    | Body
    | Committing(commit: Commit, level: nat)
    | Blocked(commit: Commit)
    | Chosen(choice: Choice)
    | Written(choice: Choice, wrote: bool)
    | Done(last: Option<Choice>, printed: bool)
    | Escaped

  datatype State = State(
    pc: Pc,
    pending: set<Sig>,
    committed: bool,
    cleanup: bool,
    latch: Option<Result>,
    out: seq<Result>)

  const START := State(Body, {}, false, false, None, [])

  datatype Action =
    | Arrive(sig: Sig)                               // the kernel marks the signal pending
    | Deliver(sig: Sig, inLoop: bool, bound: Binding) // the handler runs; inLoop: inside the blocking loop
    | LatchSuccess(result: Result)
    | MarkCleanup
    | Produce(result: Result, fallback: Option<Result>)       // any result that may not carry a reserved outcome
    | ProduceCleanup(bound: Binding, fallback: Option<Result>) // built as cleanup_incomplete: raises the flag first
    | ProducePacket(result: Result, fallback: Option<Result>)  // read back from a trusted phase packet
    | Block
    | Choose(current: bool)
    | FailBlocked                                    // an exception before the line is decided
    | Write(ok: bool)
    | SetCommitted

  /** Outcomes only a trusted packet may bring along. */
  predicate Reserved(o: Outcome) {
    o == CleanupIncomplete || o == Interrupted
  }

  function CleanupFailure(b: Binding): Result {
    Result(Failed, CleanupIncomplete, b)
  }

  predicate SignalsBlocked(pc: Pc) {
    pc.Blocked? || pc.Chosen? || pc.Written?
  }

  predicate Suppressed(s: State) {
    s.committed || s.cleanup || s.latch.Some?
  }

  /** An interruption reaches the code at s.pc. */
  function Raise(s: State, sig: Sig, inLoop: bool, bound: Binding): State {
    var interrupted := Result(Refused, Interrupted, bound);
    match s.pc
    case Body => s.(pc := Committing(Commit(interrupted, Some(interrupted), {sig}), 0))
    case Committing(c, level) =>
      if inLoop then s.(pc := Committing(c.(carried := c.carried + {sig}), level))
      else if level == 0 then s.(pc := Committing(Commit(interrupted, Some(interrupted), {sig}), 1))
      else if level == 1 then s.(pc := Committing(Commit(Result(Refused, Interrupted, NOTHING), None, {sig}), 2))
      else s.(pc := Escaped)
    case _ => s
  }

  function Next(s: State, act: Action): State {
    match act
    case Arrive(sig) => s.(pending := s.pending + {sig})
    case Deliver(sig, inLoop, bound) =>
      if SignalsBlocked(s.pc) || sig !in s.pending then s
      else
        var t := s.(pending := s.pending - {sig});
        if Suppressed(s) then t else Raise(t, sig, inLoop, bound)
    case LatchSuccess(r) => if s.pc.Body? then s.(latch := Some(r)) else s
    case MarkCleanup => if s.pc.Body? then s.(cleanup := true) else s
    case Produce(r, fb) => if s.pc.Body? && !Reserved(r.outcome) then s.(pc := Committing(Commit(r, fb, {}), 0)) else s
    case ProduceCleanup(b, fb) =>
      if s.pc.Body? then s.(pc := Committing(Commit(CleanupFailure(b), fb, {}), 0), cleanup := true) else s
    case ProducePacket(r, fb) => if s.pc.Body? then s.(pc := Committing(Commit(r, fb, {}), 0)) else s
    case Block => if s.pc.Committing? then s.(pc := Blocked(s.pc.commit)) else s
    case Choose(current) =>
      if s.pc.Blocked? then
        var c := s.pc.commit;
        var choice := Choice(c.result, c.fallback, s.pending + c.carried, s.latch, current, s.cleanup);
        s.(pc := Chosen(choice), pending := {})
      else s
    case FailBlocked => if s.pc.Blocked? || s.pc.Committing? then s.(pc := Done(None, false), committed := true) else s
    case Write(ok) =>
      if s.pc.Chosen? then s.(pc := Written(s.pc.choice, ok), out := if ok then s.out + [Line(s.pc.choice)] else s.out)
      else s
    case SetCommitted =>
      if s.pc.Written? then s.(pc := Done(Some(s.pc.choice), s.pc.wrote), committed := true) else s
  }

  function Run(s: State, acts: seq<Action>): State
    decreases |acts|
  {
    if acts == [] then s else Run(Next(s, acts[0]), acts[1..])
  }

  /** The exit code main returns from a finished command. */
  function ExitCode(s: State): nat
    requires s.pc.Done?
  {
    if s.pc.last.Some? && s.pc.printed then Code(s.pc.last.value) else 4
  }

  /** The choice is made on everything known when signals are blocked: those still pending, which it takes, and
      those the interrupted commits carried along. */
  lemma ChoiceSeesAllSignals(s: State, current: bool)
    requires s.pc.Blocked?
    ensures var t := Next(s, Choose(current));
      && t.pc.Chosen? && t.pending == {} && t.pc.choice.sigs == s.pending + s.pc.commit.carried
      && t.pc.choice.result == s.pc.commit.result && t.pc.choice.fallback == s.pc.commit.fallback
      && t.pc.choice.latch == s.latch && t.pc.choice.cleanup == s.cleanup
      && t.committed == s.committed && t.out == s.out
  {
  }

  /** What every step keeps. */
  ghost predicate Orderly(s: State) {
    && (s.committed <==> s.pc.Done?)
    && (match s.pc
        case Body => s.out == []
        case Committing(_, level) => s.out == [] && level <= 2
        case Blocked(_) => s.out == []
        case Chosen(c) => s.out == [] && c.latch == s.latch && c.cleanup == s.cleanup
        case Written(c, wrote) =>
          s.out == (if wrote then [Line(c)] else []) && c.latch == s.latch && c.cleanup == s.cleanup
        case Done(c, wrote) =>
          && s.out == (if wrote && c.Some? then [Line(c.value)] else [])
          && (c.Some? ==> c.value.latch == s.latch && c.value.cleanup == s.cleanup)
          && (wrote ==> c.Some?)
        case Escaped => s.out == [])
  }

  lemma NextKeepsOrder(s: State, act: Action)
    requires Orderly(s)
    ensures Orderly(Next(s, act))
  {
  }

  lemma {:induction false} RunKeepsOrder(s: State, acts: seq<Action>)
    requires Orderly(s)
    ensures Orderly(Run(s, acts))
    decreases |acts|
  {
    if acts == [] {
    } else {
      NextKeepsOrder(s, acts[0]);
      RunKeepsOrder(Next(s, acts[0]), acts[1..]);
    }
  }

  /** Once finished, nothing changes any more: no second line, no other code. */
  lemma {:induction false} DoneIsFinal(s: State, acts: seq<Action>)
    requires Orderly(s) && s.pc.Done?
    ensures Run(s, acts).pc == s.pc && Run(s, acts).out == s.out
    decreases |acts|
  {
    if acts == [] {
    } else {
      NextKeepsOrder(s, acts[0]);
      DoneIsFinal(Next(s, acts[0]), acts[1..]);
    }
  }

  /** At most one terminal line, whatever the interleaving; and when a line was written, the exit
      code is the one that line and the selected signal determine. */
  lemma OneLineAndItsCode(acts: seq<Action>)
    ensures |Run(START, acts).out| <= 1
    ensures Run(START, acts).pc.Done? && Run(START, acts).out != [] ==>
      var s := Run(START, acts);
      && s.pc.last.Some?
      && s.out == [Line(s.pc.last.value)]
      && ExitCode(s) == ExitStatus(s.out[0], Selected(s.pc.last.value))
      && (Selected(s.pc.last.value).Some? ==> s.out[0].status == Refused && s.out[0].outcome == Interrupted)
      && (Selected(s.pc.last.value) == Some(SIGINT) ==> SIGTERM !in s.pc.last.value.sigs)
  {
    RunKeepsOrder(START, acts);
  }

  /** The steps after which no line comes: an exception before the line is decided, a failed write. */
  predicate LosesLine(s: State, act: Action) {
    || (act.FailBlocked? && (s.pc.Blocked? || s.pc.Committing?))
    || (act.Write? && !act.ok && s.pc.Chosen?)
  }

  predicate EverLosesLine(s: State, acts: seq<Action>)
    decreases |acts|
  {
    acts != [] && (LosesLine(s, acts[0]) || EverLosesLine(Next(s, acts[0]), acts[1..]))
  }

  predicate LineIsLost(s: State) {
    (s.pc.Written? && !s.pc.wrote) || (s.pc.Done? && !s.pc.printed)
  }

  lemma {:induction false} LossStays(s: State, acts: seq<Action>)
    requires Orderly(s)
    ensures Run(s, acts).pc.Done? ==> (LineIsLost(Run(s, acts)) <==> LineIsLost(s) || EverLosesLine(s, acts))
    decreases |acts|
  {
    if acts == [] {
    } else {
      NextKeepsOrder(s, acts[0]);
      assert LineIsLost(Next(s, acts[0])) <==> LineIsLost(s) || LosesLine(s, acts[0]);
      LossStays(Next(s, acts[0]), acts[1..]);
    }
  }

  /** A finished command has printed nothing exactly when one of those steps was taken; otherwise it has
      printed its one line. */
  lemma SilentExactlyWhenLost(acts: seq<Action>)
    requires Run(START, acts).pc.Done?
    ensures Run(START, acts).out == [] <==> EverLosesLine(START, acts)
    ensures Run(START, acts).out == [] ==> ExitCode(Run(START, acts)) == 4
    ensures Run(START, acts).out != [] ==> |Run(START, acts).out| == 1
  {
    RunKeepsOrder(START, acts);
    LossStays(START, acts);
  }

  /** The exit code of every finished run: what the line says, or the signal that was selected. */
  lemma ExitCodeMeans(acts: seq<Action>)
    requires Run(START, acts).pc.Done?
    ensures var t := Run(START, acts);
      && (t.out == [] ==> ExitCode(t) == 4)
      && (t.out != [] ==>
            && t.pc.last.Some?
            && var c := t.pc.last.value;
               var counts := c.latch.None? && !c.cleanup && c.result.outcome != CleanupIncomplete;
               && (ExitCode(t) == 143 <==> counts && SIGTERM in c.sigs)
               && (ExitCode(t) == 130 <==> counts && SIGTERM !in c.sigs && SIGINT in c.sigs)
               && (counts && c.sigs != {} ==> t.out[0].status == Refused && t.out[0].outcome == Interrupted)
               && (!(counts && c.sigs != {}) ==>
                     && (ExitCode(t) == 2 <==> t.out[0].outcome == InvocationInvalid)
                     && (ExitCode(t) == 0 <==> t.out[0].outcome != InvocationInvalid && t.out[0].status == Ok)
                     && (ExitCode(t) == 3 <==> t.out[0].outcome != InvocationInvalid && t.out[0].status == Refused)
                     && (ExitCode(t) == 4 <==> t.out[0].outcome != InvocationInvalid && t.out[0].status == Failed)))
  {
    RunKeepsOrder(START, acts);
    var t := Run(START, acts);
    if t.out != [] {
      CodeMeans(t.pc.last.value);
    }
  }

  // ----- durable success --------------------------------------------------------------------------------

  predicate NoLatching(acts: seq<Action>) {
    forall i :: 0 <= i < |acts| ==> !acts[i].LatchSuccess?
  }

  lemma {:induction false} LatchStays(s: State, acts: seq<Action>)
    requires NoLatching(acts)
    ensures Run(s, acts).latch == s.latch
    decreases |acts|
  {
    if acts == [] {
    } else {
      LatchStays(Next(s, acts[0]), acts[1..]);
    }
  }

  /** A latched result that is still current when the commit checks it is the line, with its own exit
      code, whatever signals arrive and wherever; a stale one is never reported as ok. */
  lemma LatchedResultIsReported(s: State, acts: seq<Action>)
    requires Orderly(s) && s.latch.Some? && NoLatching(acts)
    requires Run(s, acts).pc.Done? && Run(s, acts).out != []
    ensures var t := Run(s, acts);
      && t.pc.last.Some?
      && (t.pc.last.value.current ==> t.out == [s.latch.value] && ExitCode(t) == ExitStatus(s.latch.value, None))
      && (!t.pc.last.value.current ==>
            t.out[0].status == Failed && t.out[0].outcome == ProviderUncertain && ExitCode(t) == 4)
  {
    RunKeepsOrder(s, acts);
    LatchStays(s, acts);
  }

  // ----- incomplete cleanup ------------------------------------------------------------------------------

  /** The commit under way will print `r`, unless the write fails: its flag keeps interruptions out. */
  ghost predicate BoundToPrint(s: State, r: Result) {
    && Orderly(s) && s.cleanup && s.latch.None?
    && (match s.pc
        case Body => false
        case Committing(c, _) => c.result == r
        case Blocked(c) => c.result == r
        case Chosen(c) => c.result == r
        case Written(c, _) => c.result == r
        case Done(c, _) => c.Some? ==> c.value.result == r
        case Escaped => false)
  }

  lemma {:induction false} BoundStaysBound(s: State, acts: seq<Action>, r: Result)
    requires BoundToPrint(s, r)
    ensures BoundToPrint(Run(s, acts), r)
    decreases |acts|
  {
    if acts == [] {
    } else {
      NextKeepsOrder(s, acts[0]);
      BoundStaysBound(Next(s, acts[0]), acts[1..], r);
    }
  }

  /** A result built as cleanup_incomplete is printed as it is and never replaced by "interrupted":
      whoever builds it raises the flag first. */
  lemma CleanupIncompleteIsPrinted(s: State, bound: Binding, fallback: Option<Result>, acts: seq<Action>)
    requires Orderly(s) && s.pc.Body? && s.latch.None?
    ensures var t := Run(Next(s, ProduceCleanup(bound, fallback)), acts);
      && (t.out == [] || t.out == [CleanupFailure(bound)])
      && (t.pc.Done? && t.out != [] ==> ExitCode(t) == ExitStatus(CleanupFailure(bound), None))
  {
    NextKeepsOrder(s, ProduceCleanup(bound, fallback));
    BoundStaysBound(Next(s, ProduceCleanup(bound, fallback)), acts, CleanupFailure(bound));
  }

  /** One read back from a packet is safe as well when the observer has raised the flag meanwhile. */
  lemma FlaggedPacketIsPrinted(s: State, r: Result, fallback: Option<Result>, acts: seq<Action>)
    requires Orderly(s) && s.pc.Body? && s.latch.None? && r.outcome == CleanupIncomplete
    requires s.cleanup
    ensures var t := Run(Next(s, ProducePacket(r, fallback)), acts);
      && (t.out == [] || t.out == [r])
      && (t.pc.Done? && t.out != [] ==> ExitCode(t) == ExitStatus(r, None))
  {
    NextKeepsOrder(s, ProducePacket(r, fallback));
    BoundStaysBound(Next(s, ProducePacket(r, fallback)), acts, r);
  }

  /** Otherwise the packet's result loses to a signal that arrives before the commit has blocked signals. */
  lemma UnflaggedCleanupCanBeReplaced(s: State, r: Result, fallback: Option<Result>, bound: Binding)
    returns (acts: seq<Action>)
    requires Orderly(s) && s.pc.Body? && s.latch.None? && r.outcome == CleanupIncomplete
    requires !s.cleanup
    ensures var t := Run(Next(s, ProducePacket(r, fallback)), acts);
      t.pc.Done? && |t.out| == 1 && t.out[0].outcome == Interrupted
  {
    NextKeepsOrder(s, ProducePacket(r, fallback));
    var s0 := Next(s, ProducePacket(r, fallback));
    var s1 := Next(s0, Arrive(SIGINT));
    var s2 := Next(s1, Deliver(SIGINT, false, bound));
    assert s2.pc.Committing? && s2.pc.commit.result.outcome == Interrupted && SIGINT in s2.pc.commit.carried;
    acts := FinishPlainly(s2);
    RunOne(s1, Deliver(SIGINT, false, bound), acts);
    RunOne(s0, Arrive(SIGINT), [Deliver(SIGINT, false, bound)] + acts);
    acts := [Arrive(SIGINT)] + ([Deliver(SIGINT, false, bound)] + acts);
    RunKeepsOrder(s0, acts);
  }

  predicate CleanupPacket(act: Action) {
    act.ProducePacket? && act.result.outcome == CleanupIncomplete
  }

  /** A cleanup_incomplete result on its way out has its flag up. */
  predicate CleanupIsFlagged(s: State) {
    s.pc.Committing? && s.pc.commit.result.outcome == CleanupIncomplete ==> s.cleanup
  }

  lemma {:induction false} OnlyPacketsAreUnflagged(s: State, acts: seq<Action>)
    requires CleanupIsFlagged(s) && forall i :: 0 <= i < |acts| ==> !CleanupPacket(acts[i])
    ensures CleanupIsFlagged(Run(s, acts))
    decreases |acts|
  {
    if acts == [] {
    } else {
      assert !CleanupPacket(acts[0]);
      OnlyPacketsAreUnflagged(Next(s, acts[0]), acts[1..]);
    }
  }

  /** In a run without such a packet, a cleanup_incomplete result that reaches its commit is the line,
      if there is one, whatever happens afterwards. */
  lemma CleanupIsSafeWithoutPackets(acts: seq<Action>, more: seq<Action>)
    requires forall i :: 0 <= i < |acts| ==> !CleanupPacket(acts[i])
    requires var s := Run(START, acts);
      s.pc.Committing? && s.latch.None? && s.pc.commit.result.outcome == CleanupIncomplete
    ensures var s := Run(START, acts);
      Run(s, more).out == [] || Run(s, more).out == [s.pc.commit.result]
  {
    var s := Run(START, acts);
    RunKeepsOrder(START, acts);
    OnlyPacketsAreUnflagged(START, acts);
    BoundStaysBound(s, more, s.pc.commit.result);
  }

  lemma RunOne(s: State, act: Action, rest: seq<Action>)
    ensures Run(s, [act] + rest) == Run(Next(s, act), rest)
  {
    assert ([act] + rest)[1..] == rest;
  }

  /** No further signals: the commit blocks, chooses, writes and is done. */
  lemma FinishPlainly(s: State) returns (acts: seq<Action>)
    requires Orderly(s) && s.pc.Committing?
    ensures var t, c := Run(s, acts), s.pc.commit;
      t.pc == Done(Some(Choice(c.result, c.fallback, s.pending + c.carried, s.latch, true, s.cleanup)), true)
  {
    var s1 := Next(s, Block);
    var s2 := Next(s1, Choose(true));
    var s3 := Next(s2, Write(true));
    var s4 := Next(s3, SetCommitted);
    assert Run(s4, []) == s4;
    RunOne(s3, SetCommitted, []);
    RunOne(s2, Write(true), [SetCommitted] + []);
    RunOne(s1, Choose(true), [Write(true)] + ([SetCommitted] + []));
    RunOne(s, Block, [Choose(true)] + ([Write(true)] + ([SetCommitted] + [])));
    acts := [Block] + ([Choose(true)] + ([Write(true)] + ([SetCommitted] + [])));
  }

  // ----- SIGTERM and SIGINT --------------------------------------------------------------------------------

  /** An interruption by SIGINT outside the blocking loop, of a commit that carries SIGTERM: the next
      handler starts a commit of its own, which carries SIGINT alone. */
  predicate Overrules(s: State, act: Action) {
    && act.Deliver? && act.sig == SIGINT && !act.inLoop
    && s.pc.Committing? && !Suppressed(s) && SIGINT in s.pending
    && SIGTERM in s.pc.commit.carried && SIGTERM !in s.pending
  }

  predicate NeverOverruled(s: State, acts: seq<Action>)
    decreases |acts|
  {
    acts == [] || (!Overrules(s, acts[0]) && NeverOverruled(Next(s, acts[0]), acts[1..]))
  }

  predicate BeforeChoice(pc: Pc) {
    pc.Body? || pc.Committing? || pc.Blocked?
  }

  /** SIGTERM is still on record, or no signal can be selected any more. */
  predicate TermOnRecord(s: State) {
    || s.cleanup || s.latch.Some?
    || (match s.pc
        case Body => SIGTERM in s.pending
        case Committing(c, _) => SIGTERM in s.pending || SIGTERM in c.carried
        case Blocked(c) => SIGTERM in s.pending || SIGTERM in c.carried
        case Chosen(c) => SIGTERM in c.sigs
        case Written(c, _) => SIGTERM in c.sigs
        case Done(c, _) => c.Some? ==> SIGTERM in c.value.sigs
        case Escaped => true)
  }

  lemma NextKeepsTerm(s: State, act: Action)
    requires Orderly(s) && TermOnRecord(s) && !Overrules(s, act)
    ensures TermOnRecord(Next(s, act))
  {
  }

  lemma {:induction false} RunKeepsTerm(s: State, acts: seq<Action>)
    requires Orderly(s) && TermOnRecord(s) && NeverOverruled(s, acts)
    ensures TermOnRecord(Run(s, acts))
    decreases |acts|
  {
    if acts == [] {
    } else {
      NextKeepsOrder(s, acts[0]);
      NextKeepsTerm(s, acts[0]);
      RunKeepsTerm(Next(s, acts[0]), acts[1..]);
    }
  }

  /** SIGTERM beats SIGINT among all signals that arrive, as long as no interruption overrules it: once
      it is pending before the choice, no printed end is attributed to SIGINT. */
  lemma SigtermWinsUnlessOverruled(s: State, acts: seq<Action>)
    requires Orderly(s) && SIGTERM in s.pending && BeforeChoice(s.pc) && NeverOverruled(s, acts)
    requires Run(s, acts).pc.Done? && Run(s, acts).out != []
    ensures var t := Run(s, acts);
      t.pc.last.Some? && Selected(t.pc.last.value) != Some(SIGINT) && ExitCode(t) != 128 + Number(SIGINT)
  {
    RunKeepsOrder(s, acts);
    RunKeepsTerm(s, acts);
  }

  /** And overruling is what forgets it: from every orderly state where it happens below main's own
      handler, SIGINT alone can end the command. */
  lemma OverruledSigtermCanBeForgotten(s: State, act: Action) returns (more: seq<Action>)
    requires Orderly(s) && Overrules(s, act) && s.pc.level < 2
    ensures var t := Run(Next(s, act), more);
      t.pc.Done? && t.out != [] && ExitCode(t) == 128 + Number(SIGINT)
  {
    var s1 := Next(s, act);
    NextKeepsOrder(s, act);
    assert s1.pc.Committing? && s1.pc.commit.carried == {SIGINT} && SIGTERM !in s1.pending;
    assert s1.latch.None? && !s1.cleanup && s1.pc.commit.result.outcome == Interrupted;
    more := FinishPlainly(s1);
    RunKeepsOrder(s1, more);
    assert Preferred(s1.pending + {SIGINT}) == Some(SIGINT);
  }

  /** Overruling main's handler ends without any line. */
  lemma OverruledInMainEscapes(s: State, act: Action, more: seq<Action>)
    requires Orderly(s) && Overrules(s, act) && s.pc.level == 2
    ensures Run(Next(s, act), more).pc == Escaped && Run(Next(s, act), more).out == []
  {
    NextKeepsOrder(s, act);
    EscapedIsFinal(Next(s, act), more);
  }

  lemma {:induction false} EscapedIsFinal(s: State, acts: seq<Action>)
    requires Orderly(s) && s.pc.Escaped?
    ensures Run(s, acts).pc == Escaped && Run(s, acts).out == []
    decreases |acts|
  {
    if acts == [] {
    } else {
      NextKeepsOrder(s, acts[0]);
      EscapedIsFinal(Next(s, acts[0]), acts[1..]);
    }
  }

  /** It does happen: SIGTERM is taken as an interruption, and SIGINT interrupts the commit it started. */
  lemma EarlierSigtermCanBeForgotten(bound: Binding) returns (acts: seq<Action>)
    ensures Arrive(SIGTERM) in acts && Run(START, acts).pc.Done? && Run(START, acts).out != []
    ensures ExitCode(Run(START, acts)) == 128 + Number(SIGINT)
  {
    var s1 := Next(START, Arrive(SIGTERM));
    var s2 := Next(s1, Deliver(SIGTERM, false, bound));
    var interrupted := Result(Refused, Interrupted, bound);
    assert s2.pc == Committing(Commit(interrupted, Some(interrupted), {SIGTERM}), 0);
    var s3 := Next(s2, Arrive(SIGINT));
    var s4 := Next(s3, Deliver(SIGINT, false, bound));
    assert s4.pending == {} && s4.pc.commit.carried == {SIGINT};
    var rest := FinishPlainly(s4);
    RunOne(s3, Deliver(SIGINT, false, bound), rest);
    var rest3 := [Deliver(SIGINT, false, bound)] + rest;
    RunOne(s2, Arrive(SIGINT), rest3);
    var rest2 := [Arrive(SIGINT)] + rest3;
    RunOne(s1, Deliver(SIGTERM, false, bound), rest2);
    var rest1 := [Deliver(SIGTERM, false, bound)] + rest2;
    RunOne(START, Arrive(SIGTERM), rest1);
    acts := [Arrive(SIGTERM)] + rest1;
    RunKeepsOrder(START, acts);
    assert Preferred({} + {SIGINT}) == Some(SIGINT);
  }
}

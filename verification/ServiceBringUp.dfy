/** Services around the birth transaction (scripts/birth_ceremony.py: `_start_unit_once`,
    `_restore_services`, `_bring_up_after_commit`, `_main_for_real`, `_main_resume`).

    Units change by command only: a start or a stop works or not as the world decides, and nobody looks
    at what a stop did. A probe answers truthfully or not at all. */
module ServiceBringUp {
  import opened Wrappers
  import opened BirthTransaction
  import opened BirthCeremony

  datatype Unit = Daemon | Web

  datatype Command = ResetFailed(u: Unit) | StartUnit(u: Unit) | StopUnit(u: Unit) | ProvedDaemon

  /** One look at the daemon while waiting for it to prove ownership. */
  datatype Poll = Poll(flagInEnv: bool, latchHeld: bool, mainPid: nat)

  /** Everything the world answers during one bring-up or restore, in which each unit is started at most
      once and stopped at most once. */
  datatype World = World(
    startWorks: map<Unit, bool>,   // does the unit come up when started?
    stopWorks: map<Unit, bool>,    // does it go down when stopped?
    probeAnswers: map<Unit, bool>, // does is-active give an answer after the start?
    flagLanded: nat -> bool,       // the n-th look into model.env
    firstPid: nat,
    polls: seq<Poll>,              // as many as fit before the deadline
    webSeesFlag: bool)

  predicate Yes(m: map<Unit, bool>, u: Unit) {
    u in m && m[u]
  }

  /** The main pid used at the k-th poll: the first one that was not 0. */
  function PidAt(firstPid: nat, polls: seq<Poll>, k: nat): nat
    requires k <= |polls|
  {
    if k == 0 then firstPid
    else if PidAt(firstPid, polls, k - 1) != 0 then PidAt(firstPid, polls, k - 1)
    else polls[k - 1].mainPid
  }

  predicate ShowsOwner(firstPid: nat, polls: seq<Poll>, k: nat)
    requires k < |polls|
  {
    PidAt(firstPid, polls, k) != 0 && polls[k].flagInEnv && polls[k].latchHeld
  }

  /** Some poll saw a running daemon with the flag in its environment and the latch held. */
  ghost predicate OwnershipProven(w: World) {
    exists k :: 0 <= k < |w.polls| && ShowsOwner(w.firstPid, w.polls, k)
  }

  /** Seen from outside: some poll found flag and latch with a pid known by then. */
  lemma OwnershipMeans(w: World)
    ensures OwnershipProven(w) <==>
      (exists k :: 0 <= k < |w.polls| && w.polls[k].flagInEnv && w.polls[k].latchHeld &&
           (w.firstPid != 0 || exists j :: 0 <= j < k && w.polls[j].mainPid != 0))
  {
    if k :| 0 <= k < |w.polls| && ShowsOwner(w.firstPid, w.polls, k) {
      PidIsKnown(w.firstPid, w.polls, k);
    }
    if k :| 0 <= k < |w.polls| && w.polls[k].flagInEnv && w.polls[k].latchHeld &&
            (w.firstPid != 0 || exists j :: 0 <= j < k && w.polls[j].mainPid != 0) {
      PidIsKnown(w.firstPid, w.polls, k);
      assert ShowsOwner(w.firstPid, w.polls, k);
    }
  }

  lemma {:induction false} PidIsKnown(firstPid: nat, polls: seq<Poll>, k: nat)
    requires k <= |polls|
    ensures PidAt(firstPid, polls, k) != 0 <==> firstPid != 0 || exists j :: 0 <= j < k && polls[j].mainPid != 0
    decreases k
  {
    if k == 0 {
    } else {
      PidIsKnown(firstPid, polls, k - 1);
    }
  }

  const FLAG_PROMPTS := 3

  /** How often the owner is asked: until a look finds the flag, three times at most. */
  function Prompts(w: World): nat {
    if w.flagLanded(0) then 0 else if w.flagLanded(1) then 1 else if w.flagLanded(2) then 2 else FLAG_PROMPTS
  }

  /** The look that counts is one more, after the asking is over. */
  predicate FlagFound(w: World) {
    w.flagLanded(Prompts(w) + 1)
  }

  /** The unit runs behind a start: it ran before, or the start works. */
  predicate Runs(w: World, u: Unit, was: bool) {
    was || Yes(w.startWorks, u)
  }

  /** It runs and can be shown to. */
  predicate ComesUp(w: World, u: Unit, was: bool) {
    Runs(w, u, was) && Yes(w.probeAnswers, u)
  }

  /** It runs, is told to stop, and does not. */
  predicate Survives(w: World, u: Unit, was: bool) {
    Runs(w, u, was) && !Yes(w.stopWorks, u)
  }

  /** A stop that does not take the unit down. */
  predicate StaysUp(up: bool, stopWorks: map<Unit, bool>, u: Unit) {
    up && !Yes(stopWorks, u)
  }

  ghost predicate DaemonProven(w: World, was: bool) {
    FlagFound(w) && ComesUp(w, Daemon, was) && OwnershipProven(w)
  }

  /** When the daemon counts as proven, spelled out: the deciding look finds the flag, the unit runs and shows
      it, and some poll sees flag and latch of a known pid. */
  lemma ProvenMeans(w: World, was: bool)
    ensures DaemonProven(w, was) <==>
      && (if w.flagLanded(0) then w.flagLanded(1) else if w.flagLanded(1) then w.flagLanded(2)
          else if w.flagLanded(2) then w.flagLanded(3) else w.flagLanded(4))
      && (was || (Daemon in w.startWorks && w.startWorks[Daemon])) && Daemon in w.probeAnswers && w.probeAnswers[Daemon]
      && (exists k :: 0 <= k < |w.polls| && w.polls[k].flagInEnv && w.polls[k].latchHeld &&
           (w.firstPid != 0 || exists j :: 0 <= j < k && w.polls[j].mainPid != 0))
  {
    OwnershipMeans(w);
  }

  /** Whether a unit runs and shows it, and whether it is still up after a stop. */
  lemma UnitMeans(w: World, u: Unit, was: bool)
    ensures ComesUp(w, u, was) <==>
      (was || (u in w.startWorks && w.startWorks[u])) && u in w.probeAnswers && w.probeAnswers[u]
    ensures Survives(w, u, was) <==>
      (was || (u in w.startWorks && w.startWorks[u])) && !(u in w.stopWorks && w.stopWorks[u])
    ensures StaysUp(was, w.stopWorks, u) <==> was && !(u in w.stopWorks && w.stopWorks[u])
  {
  }

  datatype Terminal =
    | Refused
    | QUIESCE_FAILED_HANDS_OFF
    | NOT_COMMITTED_SERVICES_RESTORED
    | NOT_COMMITTED_SERVICES_DOWN
    | COMMITTED_ACTIVE
    | COMMITTED_WEB_DOWN
    | COMMITTED_WEB_MUTE
    | COMMITTED_SERVICES_DOWN
    | COMMIT_STATUS_UNKNOWN_SERVICES_DOWN

  function Starts(log: seq<Command>, u: Unit): nat {
    if log == [] then 0
    else Starts(log[..|log| - 1], u) + if log[|log| - 1] == StartUnit(u) then 1 else 0
  }

  lemma {:induction false} StartsOfConcat(a: seq<Command>, b: seq<Command>, u: Unit)
    ensures Starts(a + b, u) == Starts(a, u) + Starts(b, u)
  {
    if b == [] {
      assert a + b == a;
    } else {
      assert (a + b)[..|a + b| - 1] == a + b[..|b| - 1];
      StartsOfConcat(a, b[..|b| - 1], u);
    }
  }

  lemma StartsOfOne(c: Command, u: Unit)
    ensures Starts([c], u) == if c == StartUnit(u) then 1 else 0
  {
    assert [c][..0] == [];
  }

  /** Web is started, if at all, behind the daemon's proof. */
  predicate WebAfterProof(log: seq<Command>) {
    forall i :: 0 <= i < |log| && log[i] == StartUnit(Web) ==> exists j :: 0 <= j < i && log[j] == ProvedDaemon
  }

  class Services {
    var daemonUp: bool
    var webUp: bool
    ghost var log: seq<Command>

    constructor (daemon: bool, web: bool)
      ensures daemonUp == daemon && webUp == web && log == []
    {
      daemonUp, webUp, log := daemon, web, [];
    }

    predicate Up(u: Unit)
      reads this
    {
      match u case Daemon => daemonUp case Web => webUp
    }

    method Stop(u: Unit, works: map<Unit, bool>)
      modifies this
      ensures daemonUp == (if u == Daemon then StaysUp(old(daemonUp), works, u) else old(daemonUp))
      ensures webUp == (if u == Web then StaysUp(old(webUp), works, u) else old(webUp))
      ensures u in works && works[u] ==> !Up(u)
      ensures !(u in works && works[u]) ==> Up(u) == old(Up(u))
      ensures log == old(log) + [StopUnit(u)]
    {
      if Yes(works, u) {
        match u {
          case Daemon => daemonUp := false;
          case Web => webUp := false;
        }
      }
      log := log + [StopUnit(u)];
    }

    /** One reset-failed, one start; a unit that cannot be shown to be up is told to stop, and nobody
        looks whether it did. */
    method StartUnitOnce(u: Unit, w: World) returns (ok: bool)
      modifies this
      ensures ok <==> ComesUp(w, u, old(Up(u)))
      ensures Up(u) <==> ok || Survives(w, u, old(Up(u)))
      ensures u != Daemon ==> daemonUp == old(daemonUp)
      ensures u != Web ==> webUp == old(webUp)
      ensures log == old(log) + Attempt(u, ok)
      ensures ok <==>
        (old(Up(u)) || (u in w.startWorks && w.startWorks[u])) && u in w.probeAnswers && w.probeAnswers[u]
      ensures Up(u) <==>
        && (old(Up(u)) || (u in w.startWorks && w.startWorks[u]))
        && ((u in w.probeAnswers && w.probeAnswers[u]) || !(u in w.stopWorks && w.stopWorks[u]))
      ensures log == old(log) + [ResetFailed(u), StartUnit(u)] + (if ok then [] else [StopUnit(u)])
    {
      log := log + [ResetFailed(u), StartUnit(u)];
      match u {
        case Daemon => daemonUp := daemonUp || Yes(w.startWorks, Daemon);
        case Web => webUp := webUp || Yes(w.startWorks, Web);
      }
      if Yes(w.probeAnswers, u) && Up(u) {
        return true;
      }
      Stop(u, w.stopWorks);
      ok := false;
    }

    /** NOT_COMMITTED: put back what was running, the daemon first, web only on top of it. */
    method Restore(daemonWanted: bool, webWanted: bool, w: World) returns (ok: bool)
      requires !daemonUp && !webUp
      modifies this
      // Success is reported exactly when every wanted unit is shown to be up ...
      ensures ok <==> Restorable(w, daemonWanted, webWanted)
      // ... and then every unit is as it was. A failure may leave a unit running that was not seen and
      // did not stop, but never one that did not run before.
      ensures ok ==> daemonUp == daemonWanted && webUp == webWanted
      ensures daemonUp <==> daemonWanted && (ComesUp(w, Daemon, false) || Survives(w, Daemon, false))
      ensures webUp <==>
        && webWanted && (daemonWanted ==> ComesUp(w, Daemon, false))
        && (ComesUp(w, Web, false) || Survives(w, Web, false))
      ensures old(log) <= log
      ensures forall u :: Starts(log[|old(log)|..], u) <= 1
    {
      ghost var was := log;
      ok := true;
      var daemonStarted := false;
      ghost var first: seq<Command> := [];
      if daemonWanted {
        daemonStarted := StartUnitOnce(Daemon, w);
        ok := daemonStarted;
        first := Attempt(Daemon, daemonStarted);
      }
      assert log == was + first;
      ghost var second: seq<Command> := [];
      if webWanted {
        if daemonWanted && !daemonStarted {
          Stop(Web, w.stopWorks);
          ok := false;
          second := [StopUnit(Web)];
        } else {
          var web := StartUnitOnce(Web, w);
          ok := web && ok;
          second := Attempt(Web, web);
        }
      }
      assert log == (was + first) + second;
      assert log[|was|..] == first + second;
      RestoreStarts(first, second);
    }

    /** Wait until a poll shows the daemon as owner, or the deadline has passed. */
    method AwaitOwner(w: World) returns (ok: bool)
      ensures ok <==> OwnershipProven(w)
      ensures ok <==>
        (exists k :: 0 <= k < |w.polls| && w.polls[k].flagInEnv && w.polls[k].latchHeld &&
             (w.firstPid != 0 || exists j :: 0 <= j < k && w.polls[j].mainPid != 0))
    {
      OwnershipMeans(w);
      var pid := w.firstPid;
      for k := 0 to |w.polls|
        invariant pid == PidAt(w.firstPid, w.polls, k)
        invariant forall j :: 0 <= j < k ==> !ShowsOwner(w.firstPid, w.polls, j)
      {
        if pid != 0 && w.polls[k].flagInEnv && w.polls[k].latchHeld {
          assert ShowsOwner(w.firstPid, w.polls, k);
          return true;
        }
        if pid == 0 { pid := w.polls[k].mainPid; }
      }
      ok := false;
    }

    /** Ask up to three times for the flag; look once more at the end. */
    method AwaitFlag(w: World) returns (found: bool)
      ensures found <==> FlagFound(w)
      ensures found <==>
        (if w.flagLanded(0) then w.flagLanded(1) else if w.flagLanded(1) then w.flagLanded(2)
            else if w.flagLanded(2) then w.flagLanded(3) else w.flagLanded(4))
    {
      var tries := 0;
      var seen := w.flagLanded(0);
      while !seen && tries < FLAG_PROMPTS
        invariant 0 <= tries <= FLAG_PROMPTS && seen == w.flagLanded(tries)
        invariant forall n: nat :: n < tries ==> !w.flagLanded(n)
        decreases FLAG_PROMPTS - tries
      {
        tries := tries + 1;
        seen := w.flagLanded(tries);
      }
      found := w.flagLanded(tries + 1);
    }

    /** After a commit: daemon first, proven as owner, then web, which must see the flag too. */
    method BringUpAfterCommit(w: World) returns (t: Terminal)
      modifies this
      ensures t == COMMITTED_ACTIVE <==>
        DaemonProven(w, old(daemonUp)) && ComesUp(w, Web, old(webUp)) && w.webSeesFlag
      ensures t == COMMITTED_WEB_DOWN <==> DaemonProven(w, old(daemonUp)) && !ComesUp(w, Web, old(webUp))
      ensures t == COMMITTED_WEB_MUTE <==>
        DaemonProven(w, old(daemonUp)) && ComesUp(w, Web, old(webUp)) && !w.webSeesFlag
      ensures t == COMMITTED_SERVICES_DOWN <==> !DaemonProven(w, old(daemonUp))
      ensures t == COMMITTED_ACTIVE ==> daemonUp && webUp
      // The daemon is up as reported; web is down exactly when it did not survive its stop.
      ensures t == COMMITTED_WEB_DOWN || t == COMMITTED_WEB_MUTE ==>
        daemonUp && (webUp <==> Survives(w, Web, old(webUp)))
      // Services-down: each unit is down exactly when it did not survive its stop, except that without
      // the flag neither is touched.
      ensures t == COMMITTED_SERVICES_DOWN && FlagFound(w) ==>
        && (daemonUp <==> Survives(w, Daemon, old(daemonUp)))
        && (webUp <==> StaysUp(old(webUp), w.stopWorks, Web))
      ensures !FlagFound(w) ==> unchanged(this)
      ensures old(log) <= log
      ensures forall u :: Starts(log[|old(log)|..], u) <= 1
      ensures WebAfterProof(log[|old(log)|..])
      // Spelled out: a state that calls the daemon proven is reported exactly when the deciding look finds
      // the flag, the daemon runs and shows it, and some poll sees flag and latch of a known pid.
      ensures t == COMMITTED_ACTIVE || t == COMMITTED_WEB_DOWN || t == COMMITTED_WEB_MUTE <==>
        && (if w.flagLanded(0) then w.flagLanded(1) else if w.flagLanded(1) then w.flagLanded(2)
            else if w.flagLanded(2) then w.flagLanded(3) else w.flagLanded(4))
        && (old(daemonUp) || (Daemon in w.startWorks && w.startWorks[Daemon]))
        && Daemon in w.probeAnswers && w.probeAnswers[Daemon]
        && (exists k :: 0 <= k < |w.polls| && w.polls[k].flagInEnv && w.polls[k].latchHeld &&
             (w.firstPid != 0 || exists j :: 0 <= j < k && w.polls[j].mainPid != 0))
      ensures t == COMMITTED_ACTIVE ==>
        && w.webSeesFlag && (old(webUp) || (Web in w.startWorks && w.startWorks[Web]))
        && Web in w.probeAnswers && w.probeAnswers[Web]
      // So a daemon no poll sees with the flag, with the latch, or with a pid, is never called proven.
      ensures (forall k :: 0 <= k < |w.polls| ==> !w.polls[k].flagInEnv) ==> t == COMMITTED_SERVICES_DOWN
      ensures (forall k :: 0 <= k < |w.polls| ==> !w.polls[k].latchHeld) ==> t == COMMITTED_SERVICES_DOWN
      ensures w.firstPid == 0 && (forall k :: 0 <= k < |w.polls| ==> w.polls[k].mainPid == 0) ==>
        t == COMMITTED_SERVICES_DOWN
    {
      ProvenMeans(w, daemonUp);
      ghost var was := log;
      var found := AwaitFlag(w);
      if !found {
        assert log[|was|..] == [];
        return COMMITTED_SERVICES_DOWN;
      }
      var daemon := StartUnitOnce(Daemon, w);
      if !daemon {
        Stop(Web, w.stopWorks);
        OneAttempt(log[|was|..], Daemon, [StopUnit(Daemon), StopUnit(Web)]);
        return COMMITTED_SERVICES_DOWN;
      }
      var owner := AwaitOwner(w);
      if !owner {
        Stop(Web, w.stopWorks);
        Stop(Daemon, w.stopWorks);
        OneAttempt(log[|was|..], Daemon, [StopUnit(Web), StopUnit(Daemon)]);
        return COMMITTED_SERVICES_DOWN;
      }
      log := log + [ProvedDaemon];
      t := BringUpWeb(w, was);
    }

    method BringUpWeb(w: World, ghost was: seq<Command>) returns (t: Terminal)
      requires daemonUp && log == was + [ResetFailed(Daemon), StartUnit(Daemon), ProvedDaemon]
      modifies this
      ensures daemonUp
      ensures t == COMMITTED_ACTIVE || t == COMMITTED_WEB_DOWN || t == COMMITTED_WEB_MUTE
      ensures webUp <==> t == COMMITTED_ACTIVE || Survives(w, Web, old(webUp))
      ensures t == COMMITTED_ACTIVE <==> ComesUp(w, Web, old(webUp)) && w.webSeesFlag
      ensures t == COMMITTED_WEB_DOWN <==> !ComesUp(w, Web, old(webUp))
      ensures was <= log
      ensures forall u :: Starts(log[|was|..], u) <= 1
      ensures WebAfterProof(log[|was|..])
    {
      var web := StartUnitOnce(Web, w);
      if !web {
        TwoAttempts(log[|was|..], [StopUnit(Web)]);
        return COMMITTED_WEB_DOWN;
      }
      if !w.webSeesFlag {
        Stop(Web, w.stopWorks);
        TwoAttempts(log[|was|..], [StopUnit(Web)]);
        return COMMITTED_WEB_MUTE;
      }
      TwoAttempts(log[|was|..], []);
      t := COMMITTED_ACTIVE;
    }
  }

  /** Every unit that ran before can be started and shown to be up. */
  predicate Restorable(w: World, daemonWanted: bool, webWanted: bool) {
    (daemonWanted ==> ComesUp(w, Daemon, false)) && (webWanted ==> ComesUp(w, Web, false))
  }

  /** What StartUnitOnce sends. */
  function Attempt(u: Unit, ok: bool): seq<Command> {
    [ResetFailed(u), StartUnit(u)] + if ok then [] else [StopUnit(u)]
  }

  lemma RestoreStarts(first: seq<Command>, second: seq<Command>)
    requires first == [] || first == Attempt(Daemon, true) || first == Attempt(Daemon, false)
    requires second == [] || second == [StopUnit(Web)] || second == Attempt(Web, true) || second == Attempt(Web, false)
    ensures forall u :: Starts(first + second, u) <= 1
  {
    forall u ensures Starts(first + second, u) <= 1 {
      StartsOfConcat(first, second, u);
      AttemptStarts(Daemon, u, true);
      AttemptStarts(Daemon, u, false);
      AttemptStarts(Web, u, true);
      AttemptStarts(Web, u, false);
      StartsOfOne(StopUnit(Web), u);
    }
  }

  lemma AttemptStarts(u: Unit, v: Unit, ok: bool)
    ensures Starts(Attempt(u, ok), v) == (if u == v then 1 else 0)
  {
    StartsOfOne(ResetFailed(u), v);
    StartsOfOne(StartUnit(u), v);
    StartsOfOne(StopUnit(u), v);
    StartsOfConcat([ResetFailed(u)], [StartUnit(u)], v);
    assert [ResetFailed(u)] + [StartUnit(u)] == [ResetFailed(u), StartUnit(u)];
    StartsOfConcat([ResetFailed(u), StartUnit(u)], if ok then [] else [StopUnit(u)], v);
  }

  lemma {:induction false} NoStarts(log: seq<Command>, u: Unit)
    requires forall i :: 0 <= i < |log| ==> !log[i].StartUnit?
    ensures Starts(log, u) == 0
  {
    if log == [] {
    } else {
      NoStarts(log[..|log| - 1], u);
    }
  }

  lemma OneAttempt(log: seq<Command>, u: Unit, rest: seq<Command>)
    requires u == Daemon && log == [ResetFailed(u), StartUnit(u)] + rest
    requires forall i :: 0 <= i < |rest| ==> !rest[i].StartUnit?
    ensures forall v :: Starts(log, v) <= 1
    ensures WebAfterProof(log)
  {
    forall v ensures Starts(log, v) <= 1 {
      AttemptStarts(u, v, true);
      assert [ResetFailed(u), StartUnit(u)] + [] == [ResetFailed(u), StartUnit(u)];
      NoStarts(rest, v);
      StartsOfConcat([ResetFailed(u), StartUnit(u)], rest, v);
    }
  }

  lemma TwoAttempts(log: seq<Command>, rest: seq<Command>)
    requires log == [ResetFailed(Daemon), StartUnit(Daemon), ProvedDaemon, ResetFailed(Web), StartUnit(Web)] + rest
    requires forall i :: 0 <= i < |rest| ==> !rest[i].StartUnit?
    ensures forall v :: Starts(log, v) <= 1
    ensures WebAfterProof(log)
  {
    var a := [ResetFailed(Daemon), StartUnit(Daemon)];
    var b := [ResetFailed(Web), StartUnit(Web)];
    assert log == a + ([ProvedDaemon] + (b + rest));
    forall v ensures Starts(log, v) <= 1 {
      AttemptStarts(Daemon, v, true);
      AttemptStarts(Web, v, true);
      assert a + [] == a && b + [] == b;
      StartsOfOne(ProvedDaemon, v);
      NoStarts(rest, v);
      StartsOfConcat(b, rest, v);
      StartsOfConcat([ProvedDaemon], b + rest, v);
      StartsOfConcat(a, [ProvedDaemon] + (b + rest), v);
    }
    assert log[2] == ProvedDaemon;
  }

  // ----- the two entry points ----------------------------------------------------------------------

  /** What decides whether a for-real ceremony gets as far as stopping units, and what the stops do. */
  datatype Entry = Entry(
    gatesPass: bool,       // TTY, no path overrides, canonical paths, phrase, mint and consume
    statesReadable: bool,  // both is-active probes answer before anything is stopped
    stopWorks: map<Unit, bool>)

  /** Neither unit survived the stops, and nothing else that writes was found (oks[0]). */
  predicate Quiesced(daemonUp: bool, webUp: bool, entry: Entry, oks: seq<bool>)
    requires |oks| == STEPS
  {
    oks[0] && !StaysUp(daemonUp, entry.stopWorks, Daemon) && !StaysUp(webUp, entry.stopWorks, Web)
  }

  /** What the terminal state of a ceremony that got behind the quiesce says, for the ledger as classified
      at the end and the units as they are left; `daemonWas` and `webWas` are the units before. */
  ghost predicate TellsTheTruth(t: Terminal, verdict: Class, daemonUp: bool, webUp: bool, daemonWas: bool, webWas: bool,
                                w: World)
  {
    match verdict
    case COMMITTED => TellsCommitted(t, daemonUp, webUp, w)
    case NOT_COMMITTED => TellsRestored(t, daemonUp, webUp, daemonWas, webWas, w)
    case UNKNOWN => t == COMMIT_STATUS_UNKNOWN_SERVICES_DOWN && !daemonUp && !webUp
  }

  ghost predicate TellsCommitted(t: Terminal, daemonUp: bool, webUp: bool, w: World) {
    match t
    case COMMITTED_ACTIVE =>
      DaemonProven(w, false) && ComesUp(w, Web, false) && w.webSeesFlag && daemonUp && webUp
    case COMMITTED_WEB_DOWN =>
      DaemonProven(w, false) && !ComesUp(w, Web, false) && daemonUp && (webUp <==> Survives(w, Web, false))
    case COMMITTED_WEB_MUTE =>
      && DaemonProven(w, false) && ComesUp(w, Web, false) && !w.webSeesFlag
      && daemonUp && (webUp <==> Survives(w, Web, false))
    case COMMITTED_SERVICES_DOWN =>
      !DaemonProven(w, false) && !webUp && (daemonUp <==> FlagFound(w) && Survives(w, Daemon, false))
    case _ => false
  }

  predicate TellsRestored(t: Terminal, daemonUp: bool, webUp: bool, daemonWas: bool, webWas: bool, w: World) {
    match t
    case NOT_COMMITTED_SERVICES_RESTORED =>
      Restorable(w, daemonWas, webWas) && daemonUp == daemonWas && webUp == webWas
    case NOT_COMMITTED_SERVICES_DOWN =>
      && !Restorable(w, daemonWas, webWas)
      && (daemonUp <==> daemonWas && (ComesUp(w, Daemon, false) || Survives(w, Daemon, false)))
      && (webUp <==>
           && webWas && (daemonWas ==> ComesUp(w, Daemon, false))
           && (ComesUp(w, Web, false) || Survives(w, Web, false)))
    case _ => false
  }

  /** The cases exclude each other, so every state behind the quiesce is reached exactly under its condition. */
  lemma TruthIsExact(verdict: Class, daemonUp: bool, webUp: bool, daemonWas: bool, webWas: bool, w: World)
    ensures forall t :: TellsTheTruth(t, verdict, daemonUp, webUp, daemonWas, webWas, w) ==>
      && (t == COMMIT_STATUS_UNKNOWN_SERVICES_DOWN <==> verdict == UNKNOWN)
      && (t == NOT_COMMITTED_SERVICES_RESTORED <==> verdict == NOT_COMMITTED && Restorable(w, daemonWas, webWas))
      && (t == NOT_COMMITTED_SERVICES_DOWN <==> verdict == NOT_COMMITTED && !Restorable(w, daemonWas, webWas))
      && (t == COMMITTED_ACTIVE <==>
            verdict == COMMITTED && DaemonProven(w, false) && ComesUp(w, Web, false) && w.webSeesFlag)
      && (t == COMMITTED_WEB_DOWN <==> verdict == COMMITTED && DaemonProven(w, false) && !ComesUp(w, Web, false))
      && (t == COMMITTED_WEB_MUTE <==>
            verdict == COMMITTED && DaemonProven(w, false) && ComesUp(w, Web, false) && !w.webSeesFlag)
      && (t == COMMITTED_SERVICES_DOWN <==> verdict == COMMITTED && !DaemonProven(w, false))
      && t != Refused && t != QUIESCE_FAILED_HANDS_OFF
  {
  }

  /** Whatever state is reported, a restore never leaves a unit running that did not run before. */
  lemma RestoreActivatesNothingNew(t: Terminal, daemonUp: bool, webUp: bool, daemonWas: bool, webWas: bool, w: World)
    requires TellsRestored(t, daemonUp, webUp, daemonWas, webWas, w)
    ensures (daemonUp ==> daemonWas) && (webUp ==> webWas)
  {
  }

  method MainForReal(disk: Disk, svc: Services, p: Pid, artifact: Artifact, entry: Entry, oks: seq<bool>, w: World)
    returns (t: Terminal)
    requires |oks| == STEPS && disk.latch != Some(p)
    modifies disk, svc
    ensures t == Refused <==>
      !entry.gatesPass || old(ClassifyCommit(disk.ledger)) != NOT_COMMITTED || !entry.statesReadable
    ensures t == Refused ==> unchanged(disk) && unchanged(svc)
    // Hands off: something is still alive, or could not be shown dead. The units are as the stops left
    // them, nothing is started, and the disk is untouched.
    ensures t == QUIESCE_FAILED_HANDS_OFF <==>
      t != Refused && !Quiesced(old(svc.daemonUp), old(svc.webUp), entry, oks)
    ensures t == QUIESCE_FAILED_HANDS_OFF ==>
      && (svc.daemonUp <==> StaysUp(old(svc.daemonUp), entry.stopWorks, Daemon))
      && (svc.webUp <==> StaysUp(old(svc.webUp), entry.stopWorks, Web))
      && unchanged(disk) && svc.log == old(svc.log) + [StopUnit(Web), StopUnit(Daemon)]
    ensures t == QUIESCE_FAILED_HANDS_OFF <==>
      && t != Refused
      && (|| !oks[0]
          || (old(svc.daemonUp) && !(Daemon in entry.stopWorks && entry.stopWorks[Daemon]))
          || (old(svc.webUp) && !(Web in entry.stopWorks && entry.stopWorks[Web])))
    // Otherwise the state says what the ledger is and how the units were left.
    ensures t != Refused && t != QUIESCE_FAILED_HANDS_OFF ==>
      TellsTheTruth(t, ClassifyCommit(disk.ledger), svc.daemonUp, svc.webUp, old(svc.daemonUp), old(svc.webUp), w)
    // A committed state means a ledger with an anchored birth event and a chain that holds; an anchor that
    // fails any of this is reported as unknown.
    ensures t in {COMMITTED_ACTIVE, COMMITTED_WEB_DOWN, COMMITTED_WEB_MUTE, COMMITTED_SERVICES_DOWN} ==>
      && disk.ledger.Maez? && disk.ledger.chained
      && disk.ledger.anchor.Some? && disk.ledger.anchor.value < |disk.ledger.turns|
      && disk.ledger.turns[disk.ledger.anchor.value].systemEvent
      && disk.ledger.turns[disk.ledger.anchor.value].payload.BirthEvent?
    ensures t != Refused && t != QUIESCE_FAILED_HANDS_OFF && disk.ledger.Maez? && disk.ledger.anchor.Some? &&
            (disk.ledger.anchor.value >= |disk.ledger.turns| || !disk.ledger.chained ||
             !disk.ledger.turns[disk.ledger.anchor.value].systemEvent ||
             !disk.ledger.turns[disk.ledger.anchor.value].payload.BirthEvent?) ==>
      t == COMMIT_STATUS_UNKNOWN_SERVICES_DOWN
    // Each unit gets at most one start, none where hands are off or the commit is unknown, and web only
    // behind the daemon's proof.
    ensures old(svc.log) <= svc.log && forall u :: Starts(svc.log[|old(svc.log)|..], u) <= 1
    ensures t == QUIESCE_FAILED_HANDS_OFF || t == COMMIT_STATUS_UNKNOWN_SERVICES_DOWN ==>
      forall u :: Starts(svc.log[|old(svc.log)|..], u) == 0
    ensures ClassifyCommit(disk.ledger) == COMMITTED ==> WebAfterProof(svc.log[|old(svc.log)|..])
  {
    ghost var was := svc.log;
    assert was[|was|..] == [];
    if !entry.gatesPass || ClassifyCommit(disk.ledger) != NOT_COMMITTED || !entry.statesReadable {
      return Refused;
    }
    var daemonWas, webWas := svc.daemonUp, svc.webUp;
    svc.Stop(Web, entry.stopWorks);
    svc.Stop(Daemon, entry.stopWorks);
    ghost var stops := [StopUnit(Web), StopUnit(Daemon)];
    assert svc.log == was + stops;
    StopsOnly(stops);
    assert svc.log[|was|..] == stops;

    var quiesced := oks[0] && !svc.daemonUp && !svc.webUp;
    var outcome := disk.RunTransaction(p, artifact, oks[0 := quiesced]);
    if outcome.QuiesceRefused? {
      return QUIESCE_FAILED_HANDS_OFF;
    }
    ghost var mid := svc.log;
    t := Conclude(svc, ClassifyCommit(disk.ledger), daemonWas, webWas, w);
    ClassifyMeans(disk.ledger);
    TruthIsExact(ClassifyCommit(disk.ledger), svc.daemonUp, svc.webUp, daemonWas, webWas, w);
    assert mid == was + stops;
    AfterStops(was, stops, svc.log);
  }

  /** Behind the quiesce: classify again, and bring up, restore or leave alone. */
  method Conclude(svc: Services, verdict: Class, daemonWas: bool, webWas: bool, w: World) returns (t: Terminal)
    requires !svc.daemonUp && !svc.webUp
    modifies svc
    ensures TellsTheTruth(t, verdict, svc.daemonUp, svc.webUp, daemonWas, webWas, w)
    ensures old(svc.log) <= svc.log && forall u :: Starts(svc.log[|old(svc.log)|..], u) <= 1
    ensures verdict == UNKNOWN ==> forall u :: Starts(svc.log[|old(svc.log)|..], u) == 0
    ensures verdict == COMMITTED ==> WebAfterProof(svc.log[|old(svc.log)|..])
  {
    match verdict {
      case COMMITTED =>
        t := svc.BringUpAfterCommit(w);
      case NOT_COMMITTED =>
        var restored := svc.Restore(daemonWas, webWas, w);
        t := if restored then NOT_COMMITTED_SERVICES_RESTORED else NOT_COMMITTED_SERVICES_DOWN;
      case UNKNOWN =>
        assert svc.log[|svc.log|..] == [];
        t := COMMIT_STATUS_UNKNOWN_SERVICES_DOWN;
    }
  }

  lemma StopsOnly(stops: seq<Command>)
    requires stops == [StopUnit(Web), StopUnit(Daemon)]
    ensures forall u :: Starts(stops, u) == 0
  {
    forall u ensures Starts(stops, u) == 0 {
      NoStarts(stops, u);
    }
  }

  /** Two stops in front change neither how often a unit was started nor what came before web. */
  lemma AfterStops(was: seq<Command>, stops: seq<Command>, log: seq<Command>)
    requires stops == [StopUnit(Web), StopUnit(Daemon)] && was + stops <= log
    ensures was <= log
    ensures forall u :: Starts(log[|was|..], u) == Starts(log[|was + stops|..], u)
    ensures WebAfterProof(log[|was + stops|..]) ==> WebAfterProof(log[|was|..])
  {
    var rest := log[|was + stops|..];
    assert log[|was|..] == stops + rest;
    forall u ensures Starts(stops + rest, u) == Starts(rest, u) {
      StopsOnly(stops);
      StartsOfConcat(stops, rest, u);
    }
    if WebAfterProof(rest) {
      forall i | 0 <= i < |stops + rest| && (stops + rest)[i] == StartUnit(Web)
        ensures exists j :: 0 <= j < i && (stops + rest)[j] == ProvedDaemon
      {
        assert i >= 2 && rest[i - 2] == StartUnit(Web);
        var j :| 0 <= j < i - 2 && rest[j] == ProvedDaemon;
        assert (stops + rest)[j + 2] == ProvedDaemon;
      }
    }
  }

  /** --resume-services: finishes a committed birth, writes nothing. Its SERVICES_DOWN does not say
      that the units are down: without the flag it leaves them as it found them. */
  method MainResume(disk: Disk, svc: Services, gatesPass: bool, w: World) returns (t: Terminal)
    modifies svc
    ensures t == Refused <==> !gatesPass || ClassifyCommit(disk.ledger) != COMMITTED
    ensures t == Refused ==> unchanged(svc)
    // Spelled out: resumed is exactly a ledger with an anchored birth event and a chain that holds.
    ensures t != Refused <==> 
      && gatesPass
      && disk.ledger.Maez? && disk.ledger.chained
      && disk.ledger.anchor.Some? && disk.ledger.anchor.value < |disk.ledger.turns|
      && disk.ledger.turns[disk.ledger.anchor.value].systemEvent
      && disk.ledger.turns[disk.ledger.anchor.value].payload.BirthEvent?
    ensures t != Refused ==>
      && (t == COMMITTED_SERVICES_DOWN <==> !DaemonProven(w, old(svc.daemonUp)))
      && (t == COMMITTED_ACTIVE <==>
            DaemonProven(w, old(svc.daemonUp)) && ComesUp(w, Web, old(svc.webUp)) && w.webSeesFlag)
      && (t == COMMITTED_WEB_DOWN <==> DaemonProven(w, old(svc.daemonUp)) && !ComesUp(w, Web, old(svc.webUp)))
    ensures t == COMMITTED_ACTIVE ==> svc.daemonUp && svc.webUp
    ensures t == COMMITTED_WEB_DOWN || t == COMMITTED_WEB_MUTE ==>
      svc.daemonUp && (svc.webUp <==> Survives(w, Web, old(svc.webUp)))
    ensures t == COMMITTED_SERVICES_DOWN && FlagFound(w) ==>
      && (svc.daemonUp <==> Survives(w, Daemon, old(svc.daemonUp)))
      && (svc.webUp <==> StaysUp(old(svc.webUp), w.stopWorks, Web))
    ensures t != Refused && !FlagFound(w) ==> t == COMMITTED_SERVICES_DOWN && unchanged(svc)
  {
    ClassifyMeans(disk.ledger);
    if !gatesPass || ClassifyCommit(disk.ledger) != COMMITTED {
      return Refused;
    }
    t := svc.BringUpAfterCommit(w);
  }

  // ----- stops that do not stop ----------------------------------------------------------------------

  /** A daemon that does not go down is what the quiesce refusal is for: it is up when hands are taken off. */
  lemma StillAlive(webUp: bool, oks: seq<bool>)
    requires |oks| == STEPS
    ensures var entry := Entry(true, true, map[Daemon := false, Web := true]);
      !Quiesced(true, webUp, entry, oks) && StaysUp(true, entry.stopWorks, Daemon)
  {
  }

  /** The final stop of a failed start is not looked at: a daemon that came up unseen, or a mute one, can be
      left running under COMMITTED_SERVICES_DOWN. */
  lemma DaemonCanSurviveServicesDown(polls: seq<Poll>)
    requires forall k :: 0 <= k < |polls| ==> !polls[k].latchHeld
    ensures var w := World(map[Daemon := true], map[], map[Daemon := true], n => true, 1, polls, true);
      FlagFound(w) && !DaemonProven(w, false) && Survives(w, Daemon, false)
    ensures var unseen := World(map[Daemon := true], map[], map[], n => true, 1, polls, true);
      FlagFound(unseen) && !DaemonProven(unseen, false) && Survives(unseen, Daemon, false)
  {
  }

  /** And a web that cannot see the flag can keep serving under COMMITTED_WEB_MUTE. */
  lemma WebCanSurviveMute()
    ensures var both := map[Daemon := true, Web := true];
      var w := World(both, map[Web := false], both, n => true, 1, [Poll(true, true, 1)], false);
      DaemonProven(w, false) && ComesUp(w, Web, false) && !w.webSeesFlag && Survives(w, Web, false)
  {
    var both := map[Daemon := true, Web := true];
    var w := World(both, map[Web := false], both, n => true, 1, [Poll(true, true, 1)], false);
    assert ShowsOwner(w.firstPid, w.polls, 0);
  }

  /** When every stop works, each state says what its name says. */
  lemma NothingSurvivesWorkingStops(w: World, u: Unit, was: bool)
    ensures Yes(w.stopWorks, u) ==> !Survives(w, u, was) && !StaysUp(was, w.stopWorks, u)
    ensures !Yes(w.stopWorks, u) ==> (Survives(w, u, was) <==> Runs(w, u, was))
  {
  }
}

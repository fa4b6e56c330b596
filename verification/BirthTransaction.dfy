/** The birth transaction (scripts/birth_ceremony.py, `run_transaction`).

    A state machine over what is on disk (the ledger file and the execution markers), the owner
    latch and any number of ceremony processes. Every atomic step of the script is one action; a
    process may crash after any of them, and somebody may replace the ledger file. S7 proofs, hash
    chains and SQLite are predicates of the state. */
module BirthTransaction {
  import opened Wrappers

  type Artifact = nat
  type Pid = nat

  // ----- the ledger file ------------------------------------------------------------------------

  datatype Payload = BirthEvent(artifact: Artifact) | OtherEvent | NotJson

  datatype Turn = Turn(systemEvent: bool, payload: Payload)

  /** `anchor` is meta.birth_event_turn_id, as a position in the turns; a position nobody holds
      stands for an id that no turn has. `chained` says whether the hash chain verifies. */
  datatype Ledger =
    | Missing
    | ZeroBytes
    | Unreadable       // stat, open or the integrity check fails
    | NotALedger       // a readable database without Maez's tables
    | Maez(turns: seq<Turn>, anchor: Option<nat>, chained: bool)

  datatype Class = COMMITTED | NOT_COMMITTED | UNKNOWN

  function ClassifyCommit(l: Ledger): Class {
    match l
    case Missing => NOT_COMMITTED
    case ZeroBytes => NOT_COMMITTED
    case Unreadable => UNKNOWN
    case NotALedger => UNKNOWN
    case Maez(turns, anchor, chained) =>
      if anchor.None? then NOT_COMMITTED
      else if anchor.value >= |turns| || !turns[anchor.value].systemEvent then UNKNOWN
      else if !turns[anchor.value].payload.BirthEvent? then UNKNOWN
      else if !chained then UNKNOWN
      else COMMITTED
  }

  /** The classification, in terms of what the file holds. */
  lemma ClassifyMeans(l: Ledger)
    ensures ClassifyCommit(l) == COMMITTED <==>
      && l.Maez? && l.chained && l.anchor.Some? && l.anchor.value < |l.turns|
      && l.turns[l.anchor.value].systemEvent && l.turns[l.anchor.value].payload.BirthEvent?
    ensures ClassifyCommit(l) == NOT_COMMITTED <==> l.Missing? || l.ZeroBytes? || (l.Maez? && l.anchor.None?)
    ensures ClassifyCommit(l) == UNKNOWN <==>
      || l.Unreadable? || l.NotALedger?
      || (l.Maez? && l.anchor.Some? &&
           (|| l.anchor.value >= |l.turns| || !l.turns[l.anchor.value].systemEvent
            || !l.turns[l.anchor.value].payload.BirthEvent? || !l.chained))
  {
  }

  /** The birth write behind the migration: one more turn, the birth event, anchored; all others as they were. */
  lemma BirthIsAnchored(l: Ledger, a: Artifact)
    requires l.Missing? || l.ZeroBytes? || (l.Maez? && l.anchor.None?)
    ensures AcceptsBirth(Migrated(l))
    ensures var k, turn := WithBirth(Migrated(l), a), if l.Maez? then |l.turns| else 0;
      && k.Maez? && |k.turns| == turn + 1 && k.anchor == Some(turn) && k.turns[turn] == Turn(true, BirthEvent(a))
      && k.turns[..turn] == (if l.Maez? then l.turns else []) && k.chained == (l.Maez? ==> l.chained)
  {
  }

  /** What is_born reads: an anchor, and nothing about whether it can be trusted. */
  predicate IsBorn(l: Ledger) {
    l.Maez? && l.anchor.Some?
  }

  /** Stamp the schema; an existing schema is left alone. */
  function Migrated(l: Ledger): Ledger {
    if l.Maez? || l.Unreadable? then l else Maez([], None, true)
  }

  /** The anchored write is one SQLite transaction: the birth row and the anchor, or nothing. */
  predicate AcceptsBirth(l: Ledger) {
    l.Maez? && l.anchor.None?
  }

  function WithBirth(l: Ledger, a: Artifact): Ledger
    requires AcceptsBirth(l)
  {
    Maez(l.turns + [Turn(true, BirthEvent(a))], Some(|l.turns|), l.chained)
  }

  /** Opening a writer creates an empty file; that is no content. */
  predicate SameContent(l: Ledger, k: Ledger) {
    l == k || (l.Missing? && k.ZeroBytes?)
  }

  // ----- processes and steps ------------------------------------------------------------------------

  datatype MarkerState = Executing | Committed

  datatype Pc =
    | AtQuiesce | AtProof | AtMarkerCheck | AtLatch
    | AtClassify | AtClaim | AtMigrate | AtBornCheck | AtWrite | AtRewrite | AtRelease
    | AtVerify

  /** `sawUnborn` remembers a NOT_COMMITTED classification made under the latch. */
  datatype Proc = Proc(artifact: Artifact, pc: Pc, sawUnborn: bool)

  datatype State = State(
    ledger: Ledger,
    markers: map<Artifact, MarkerState>,
    latch: Option<Pid>,
    procs: map<Pid, Proc>,
    births: seq<Artifact>)  // every anchored birth write ever made, oldest first

  /** The order of the steps. */
  function Stage(pc: Pc): nat {
    match pc
    case AtQuiesce => 0
    case AtProof => 1
    case AtMarkerCheck => 2
    case AtLatch => 3
    case AtClassify => 4
    case AtClaim => 5
    case AtMigrate => 6
    case AtBornCheck => 7
    case AtWrite => 8
    case AtRewrite => 9
    case AtRelease => 10
    case AtVerify => 11
  }

  predicate UnderLatch(pc: Pc) {
    Stage(AtClassify) <= Stage(pc) <= Stage(AtRelease)
  }

  /** Unborn by its own classification, and not yet written. */
  predicate AboutToWrite(pc: Pc) {
    Stage(AtClaim) <= Stage(pc) <= Stage(AtWrite)
  }

  predicate PastMarkerCheck(pc: Pc) {
    pc == AtLatch || pc == AtClassify
  }

  /** The process ends, by return, refusal, exception or crash: the kernel drops its latch. */
  function Stop(s: State, p: Pid): State {
    s.(procs := s.procs - {p}, latch := if s.latch == Some(p) then None else s.latch)
  }

  function Goto(s: State, p: Pid, pc: Pc): State
    requires p in s.procs
  {
    s.(procs := s.procs[p := s.procs[p].(pc := pc)])
  }

  /** One atomic step of process p. `ok` is the world's answer where the script asks it: quiesce
      proven, authorization proven, write or migration successful. */
  function Advance(s: State, p: Pid, ok: bool): State
    requires p in s.procs
  {
    var a := s.procs[p].artifact;
    match s.procs[p].pc
    case AtQuiesce => if ok then Goto(s, p, AtProof) else Stop(s, p)
    case AtProof => if ok then Goto(s, p, AtMarkerCheck) else Stop(s, p)
    case AtMarkerCheck => if a !in s.markers then Goto(s, p, AtLatch) else Stop(s, p)
    case AtLatch =>
      if s.latch.None? && ok && !s.ledger.Unreadable?
        then Goto(s, p, AtClassify).(latch := Some(p), ledger := if s.ledger.Missing? then ZeroBytes else s.ledger)
        else Stop(s, p)
    case AtClassify =>
      if ClassifyCommit(s.ledger) == NOT_COMMITTED
        then s.(procs := s.procs[p := Proc(a, AtClaim, true)])
        else Stop(s, p)
    case AtClaim => if ok then Goto(s, p, AtMigrate).(markers := s.markers[a := Executing]) else Stop(s, p)
    case AtMigrate =>
      if ok && !s.ledger.Unreadable? then Goto(s, p, AtBornCheck).(ledger := Migrated(s.ledger)) else Stop(s, p)
    case AtBornCheck => if IsBorn(s.ledger) then Stop(s, p) else Goto(s, p, AtWrite)
    case AtWrite =>
      if ok && AcceptsBirth(s.ledger)
        then Goto(s, p, AtRewrite).(ledger := WithBirth(s.ledger, a), births := s.births + [a])
        else Stop(s, p)
    case AtRewrite => if ok then Goto(s, p, AtRelease).(markers := s.markers[a := Committed]) else Stop(s, p)
    case AtRelease => Goto(s, p, AtVerify).(latch := None)
    case AtVerify => Stop(s, p)
  }

  datatype Action =
    | Begin(p: Pid, artifact: Artifact)
    | Step(p: Pid, ok: bool)
    | Crash(p: Pid)
    | Replace(ledger: Ledger)  // the ledger file is deleted or swapped; markers survive

  function Next(s: State, act: Action): State {
    match act
    case Begin(p, a) => if p in s.procs then s else s.(procs := s.procs[p := Proc(a, AtQuiesce, false)])
    case Step(p, ok) => if p in s.procs then Advance(s, p, ok) else s
    case Crash(p) => Stop(s, p)
    case Replace(l) => s.(ledger := l)
  }

  function Start(l: Ledger): State {
    State(l, map[], None, map[], [])
  }

  function Run(s: State, acts: seq<Action>): State {
    if acts == [] then s else Next(Run(s, acts[..|acts| - 1]), acts[|acts| - 1])
  }

  /** Only its own steps move a process, one place at a time. */
  lemma MovesInOrder(s: State, act: Action, p: Pid)
    requires p in s.procs && p in Next(s, act).procs && Next(s, act).procs[p].pc != s.procs[p].pc
    ensures act.Step? && act.p == p && Next(s, act) == Advance(s, p, act.ok)
    ensures Stage(Next(s, act).procs[p].pc) == Stage(s.procs[p].pc) + 1
    ensures Next(s, act).procs[p].artifact == s.procs[p].artifact
  {
  }

  /** What a process must have met to stand where its step put it, up to its claim. */
  lemma ClaimIsGuarded(s: State, t: State, p: Pid, ok: bool, pc: Pc)
    requires p in s.procs && t == Advance(s, p, ok) && p in t.procs && pc == t.procs[p].pc
    ensures pc == AtProof || pc == AtMarkerCheck ==> ok
    ensures pc == AtLatch ==> s.procs[p].artifact !in s.markers
    ensures pc == AtClassify ==> ok && s.latch.None? && t.latch == Some(p) && !s.ledger.Unreadable?
    ensures pc == AtClaim ==> s.ledger.Missing? || s.ledger.ZeroBytes? || (s.ledger.Maez? && s.ledger.anchor.None?)
    ensures pc == AtMigrate ==> ok && t.markers == s.markers[s.procs[p].artifact := Executing]
  {
  }

  /** Behind its claim. The last look at the anchor is not the write's own refusal: the file may change between. */
  lemma WriteIsGuarded(s: State, t: State, p: Pid, ok: bool)
    requires p in s.procs && t == Advance(s, p, ok) && p in t.procs
    ensures s.procs[p].pc == AtMigrate ==> ok && !s.ledger.Unreadable? && t.ledger.Maez?
    ensures s.procs[p].pc == AtBornCheck ==> !(s.ledger.Maez? && s.ledger.anchor.Some?) && t.ledger == s.ledger
  {
  }

  /** Its write: the birth stands behind all turns there were, and the anchor is its position. */
  lemma BirthIsWritten(s: State, t: State, p: Pid, ok: bool, a: Artifact)
    requires p in s.procs && s.procs[p].pc == AtWrite && t == Advance(s, p, ok) && p in t.procs
    requires a == s.procs[p].artifact
    ensures ok && s.ledger.Maez? && s.ledger.anchor.None? && t.births == s.births + [a]
    ensures t.ledger == Maez(s.ledger.turns + [Turn(true, BirthEvent(a))], Some(|s.ledger.turns|), s.ledger.chained)
  {
  }

  /** Behind its write: the marker is rewritten, then the latch is freed. */
  lemma CompletionIsGuarded(s: State, t: State, p: Pid, ok: bool)
    requires p in s.procs && t == Advance(s, p, ok) && p in t.procs
    ensures s.procs[p].pc == AtRewrite ==> ok && t.markers == s.markers[s.procs[p].artifact := Committed]
    ensures s.procs[p].pc == AtRelease ==> t.latch.None?
  {
  }

  // ----- what every step keeps ------------------------------------------------------------------------

  predicate Distinct(births: seq<Artifact>) {
    forall i, j :: 0 <= i < j < |births| ==> births[i] != births[j]
  }

  /** Which process may be where. Holds whatever anybody does to the ledger file. */
  ghost predicate Disciplined(s: State) {
    && (forall p :: p in s.procs && UnderLatch(s.procs[p].pc) ==> s.latch == Some(p))
    && (s.latch.Some? ==> s.latch.value in s.procs && UnderLatch(s.procs[s.latch.value].pc))
    && (forall p :: p in s.procs ==> ProcDisciplined(s, s.procs[p]))
    && (forall i :: 0 <= i < |s.births| ==> s.births[i] in s.markers)
  }

  predicate ProcDisciplined(s: State, q: Proc) {
    && (Stage(q.pc) >= Stage(AtClaim) ==> q.sawUnborn)
    && (Stage(q.pc) >= Stage(AtMigrate) ==> q.artifact in s.markers)
  }

  /** What one step of p may touch: its own entry, its own latch, new markers. */
  ghost predicate OnlyMoves(s: State, t: State, p: Pid) {
    && (forall q :: q != p ==> (q in s.procs <==> q in t.procs))
    && (forall q :: q != p && q in s.procs && q in t.procs ==> s.procs[q] == t.procs[q])
    && s.markers.Keys <= t.markers.Keys
    && (t.latch == s.latch || (s.latch.None? && t.latch == Some(p)) || (s.latch == Some(p) && t.latch.None?))
  }

  ghost predicate LandsWell(t: State, p: Pid) {
    if p in t.procs
      then (UnderLatch(t.procs[p].pc) <==> t.latch == Some(p)) && ProcDisciplined(t, t.procs[p])
      else t.latch != Some(p)
  }

  lemma AdvanceOnlyMoves(s: State, p: Pid, ok: bool)
    requires p in s.procs
    requires UnderLatch(s.procs[p].pc) <==> s.latch == Some(p)
    ensures OnlyMoves(s, Advance(s, p, ok), p)
  {
  }

  lemma AdvanceLandsWell(s: State, p: Pid, ok: bool)
    requires p in s.procs && ProcDisciplined(s, s.procs[p])
    requires UnderLatch(s.procs[p].pc) <==> s.latch == Some(p)
    ensures LandsWell(Advance(s, p, ok), p)
  {
  }

  lemma AdvanceBirths(s: State, p: Pid, ok: bool)
    requires p in s.procs && ProcDisciplined(s, s.procs[p])
    ensures Advance(s, p, ok).births == s.births ||
      (Advance(s, p, ok).births == s.births + [s.procs[p].artifact] && s.procs[p].artifact in s.markers)
  {
  }

  lemma MovesKeepDiscipline(s: State, t: State, p: Pid)
    requires Disciplined(s) && OnlyMoves(s, t, p) && LandsWell(t, p)
    requires forall i :: 0 <= i < |t.births| ==> t.births[i] in t.markers
    ensures Disciplined(t)
  {
    forall q | q in t.procs
      ensures ProcDisciplined(t, t.procs[q]) && (UnderLatch(t.procs[q].pc) ==> t.latch == Some(q))
    {
      if q != p {
        assert ProcDisciplined(s, s.procs[q]);
      }
    }
  }

  lemma AdvanceKeepsDiscipline(s: State, p: Pid, ok: bool)
    requires Disciplined(s) && p in s.procs
    ensures Disciplined(Advance(s, p, ok))
    ensures s.markers.Keys <= Advance(s, p, ok).markers.Keys
  {
    AdvanceOnlyMoves(s, p, ok);
    AdvanceLandsWell(s, p, ok);
    AdvanceBirths(s, p, ok);
    var t := Advance(s, p, ok);
    forall i | 0 <= i < |t.births| ensures t.births[i] in t.markers {
      assert i < |s.births| ==> s.births[i] in s.markers;
    }
    MovesKeepDiscipline(s, t, p);
  }

  lemma NextKeepsDiscipline(s: State, act: Action)
    requires Disciplined(s)
    ensures Disciplined(Next(s, act))
    ensures s.markers.Keys <= Next(s, act).markers.Keys
  {
    if act.Step? && act.p in s.procs {
      AdvanceKeepsDiscipline(s, act.p, act.ok);
    }
  }

  lemma {:induction false} RunIsDisciplined(l: Ledger, acts: seq<Action>)
    ensures Disciplined(Run(Start(l), acts))
  {
    if acts == [] {
    } else {
      RunIsDisciplined(l, acts[..|acts| - 1]);
      NextKeepsDiscipline(Run(Start(l), acts[..|acts| - 1]), acts[|acts| - 1]);
    }
  }

  /** Every anchored birth write is made by a process that holds the latch, saw NOT_COMMITTED under
      it, and has its claim on disk; it goes into a ledger without an anchor. */
  lemma WritesAreGuarded(l: Ledger, acts: seq<Action>, act: Action)
    requires Next(Run(Start(l), acts), act).births != Run(Start(l), acts).births
    ensures var s := Run(Start(l), acts);
      && act.Step? && act.p in s.procs
      && s.latch == Some(act.p)
      && s.procs[act.p].pc == AtWrite && s.procs[act.p].sawUnborn
      && s.procs[act.p].artifact in s.markers
      && !IsBorn(s.ledger)
      && Next(s, act).births == s.births + [s.procs[act.p].artifact]
  {
    RunIsDisciplined(l, acts);
    GuardedIn(Run(Start(l), acts), act);
  }

  lemma GuardedIn(s: State, act: Action)
    requires Disciplined(s) && Next(s, act).births != s.births
    ensures act.Step? && act.p in s.procs && s.latch == Some(act.p)
    ensures s.procs[act.p].pc == AtWrite && s.procs[act.p].sawUnborn && s.procs[act.p].artifact in s.markers
    ensures !IsBorn(s.ledger) && Next(s, act).births == s.births + [s.procs[act.p].artifact]
  {
    AdvanceWrites(s, act.p, act.ok);
    assert ProcDisciplined(s, s.procs[act.p]);
  }

  lemma AdvanceWrites(s: State, p: Pid, ok: bool)
    requires p in s.procs && Advance(s, p, ok).births != s.births
    ensures s.procs[p].pc == AtWrite && !IsBorn(s.ledger)
    ensures Advance(s, p, ok).births == s.births + [s.procs[p].artifact]
  {
  }

  // ----- at most once per authorization -----------------------------------------------------------------

  /** A process has passed the marker check but not yet classified, its authorization has already
      been used, and yet the ledger reads as unborn. */
  ghost predicate StaleCheck(s: State, p: Pid) {
    && p in s.procs
    && PastMarkerCheck(s.procs[p].pc)
    && s.procs[p].artifact in s.births
    && ClassifyCommit(s.ledger) == NOT_COMMITTED
  }

  ghost predicate Safe(s: State) {
    forall p :: !StaleCheck(s, p)
  }

  ghost predicate OnceOnly(s: State) {
    && Distinct(s.births)
    && forall p :: p in s.procs && AboutToWrite(s.procs[p].pc) ==>
         s.procs[p].artifact !in s.births
  }

  /** The moving process itself: it is about to write only on an authorization not used yet. */
  lemma OwnEntryOnce(s: State, p: Pid, ok: bool)
    requires p in s.procs && !StaleCheck(s, p)
    requires AboutToWrite(s.procs[p].pc) ==> s.procs[p].artifact !in s.births
    requires p in Advance(s, p, ok).procs && AboutToWrite(Advance(s, p, ok).procs[p].pc)
    ensures Advance(s, p, ok).procs[p].artifact == s.procs[p].artifact
    ensures s.procs[p].artifact !in s.births && Advance(s, p, ok).births == s.births
  {
    AdvanceEntry(s, p, ok);
  }

  lemma OnceMoves(s: State, t: State, p: Pid, a: Artifact)
    requires Disciplined(s) && OnceOnly(s) && OnlyMoves(s, t, p)
    requires t.births == s.births ||
      (t.births == s.births + [a] && a !in s.births && p in s.procs && UnderLatch(s.procs[p].pc))
    requires p in t.procs && AboutToWrite(t.procs[p].pc) ==> t.procs[p].artifact !in t.births
    ensures OnceOnly(t)
  {
    forall q | q in t.procs && AboutToWrite(t.procs[q].pc)
      ensures t.procs[q].artifact !in t.births
    {
      if q != p {
        assert UnderLatch(s.procs[q].pc) && s.latch == Some(q);
        assert t.births == s.births;
      }
    }
  }

  lemma AdvanceKeepsOnce(s: State, p: Pid, ok: bool)
    requires Disciplined(s) && OnceOnly(s) && Safe(s) && p in s.procs
    ensures OnceOnly(Advance(s, p, ok))
  {
    var t, a := Advance(s, p, ok), s.procs[p].artifact;
    assert !StaleCheck(s, p);
    AdvanceOnlyMoves(s, p, ok);
    AdvanceBirthsAtWrite(s, p, ok);
    if p in t.procs && AboutToWrite(t.procs[p].pc) {
      OwnEntryOnce(s, p, ok);
    }
    OnceMoves(s, t, p, a);
  }

  lemma AdvanceBirthsAtWrite(s: State, p: Pid, ok: bool)
    requires p in s.procs
    ensures Advance(s, p, ok).births == s.births ||
      (Advance(s, p, ok).births == s.births + [s.procs[p].artifact] && s.procs[p].pc == AtWrite)
  {
  }

  lemma NextKeepsOnce(s: State, act: Action)
    requires Disciplined(s) && OnceOnly(s) && Safe(s)
    ensures OnceOnly(Next(s, act))
  {
    if act.Step? && act.p in s.procs {
      AdvanceKeepsOnce(s, act.p, act.ok);
    }
  }

  /** No two birth writes on one authorization in any run whose states are all safe, with any number
      of overlapping processes, crashes and ledger replacements. */
  lemma {:induction false} SafeRunsWriteOnce(l: Ledger, acts: seq<Action>)
    requires forall k :: 0 <= k <= |acts| ==> Safe(Run(Start(l), acts[..k]))
    ensures OnceOnly(Run(Start(l), acts))
  {
    if acts == [] {
    } else {
      var before := acts[..|acts| - 1];
      forall k | 0 <= k <= |before| ensures Safe(Run(Start(l), before[..k])) {
        assert before[..k] == acts[..k];
      }
      SafeRunsWriteOnce(l, before);
      RunIsDisciplined(l, before);
      assert before == acts[..|acts| - 1];
      NextKeepsOnce(Run(Start(l), before), acts[|acts| - 1]);
    }
  }

  lemma {:induction false} RunOfConcat(s: State, a: seq<Action>, b: seq<Action>)
    ensures Run(s, a + b) == Run(Run(s, a), b)
  {
    if b == [] {
      assert a + b == a;
    } else {
      assert (a + b)[..|a + b| - 1] == a + b[..|b| - 1];
      RunOfConcat(s, a, b[..|b| - 1]);
    }
  }

  lemma RunOfOne(s: State, act: Action)
    ensures Run(s, [act]) == Next(s, act)
  {
    assert [act][..0] == [];
    assert Run(s, []) == s;
  }

  lemma RunOfTwo(s: State, act: Action, rest: seq<Action>)
    ensures Run(s, [act] + rest) == Run(Next(s, act), rest)
  {
    RunOfConcat(s, [act], rest);
    RunOfOne(s, act);
  }

  /** n successful steps of one process. */
  function Steps(p: Pid, n: nat): seq<Action> {
    if n == 0 then [] else [Step(p, true)] + Steps(p, n - 1)
  }

  lemma StepsOnce(s: State, p: Pid, n: nat)
    requires n > 0 && p in s.procs
    ensures Run(s, Steps(p, n)) == Run(Advance(s, p, true), Steps(p, n - 1))
  {
    RunOfTwo(s, Step(p, true), Steps(p, n - 1));
  }

  /** From classification on an unborn ledger, five steps under the latch write a birth. */
  lemma ClassifyToWrite(s: State, p: Pid)
    requires p in s.procs && s.procs[p].pc == AtClassify && ClassifyCommit(s.ledger) == NOT_COMMITTED
    ensures Run(s, Steps(p, 5)).births == s.births + [s.procs[p].artifact]
  {
    StepsOnce(s, p, 5);
    ClassificationPasses(s, p);
    ClaimToWrite(Advance(s, p, true), p);
  }

  lemma ClassificationPasses(s: State, p: Pid)
    requires p in s.procs && s.procs[p].pc == AtClassify && ClassifyCommit(s.ledger) == NOT_COMMITTED
    ensures var t := Advance(s, p, true);
      && p in t.procs && t.procs[p].pc == AtClaim && t.procs[p].artifact == s.procs[p].artifact
      && t.ledger == s.ledger && t.births == s.births
  {
  }

  lemma ClaimToWrite(s: State, p: Pid)
    requires p in s.procs && s.procs[p].pc == AtClaim && ClassifyCommit(s.ledger) == NOT_COMMITTED
    ensures Run(s, Steps(p, 4)).births == s.births + [s.procs[p].artifact]
  {
    StepsOnce(s, p, 4);
    ClaimSucceeds(s, p);
    MigrateToWrite(Advance(s, p, true), p);
  }

  lemma ClaimSucceeds(s: State, p: Pid)
    requires p in s.procs && s.procs[p].pc == AtClaim
    ensures var t := Advance(s, p, true);
      && p in t.procs && t.procs[p].pc == AtMigrate && t.procs[p].artifact == s.procs[p].artifact
      && t.ledger == s.ledger && t.births == s.births
  {
  }

  lemma MigrateToWrite(s: State, p: Pid)
    requires p in s.procs && s.procs[p].pc == AtMigrate && ClassifyCommit(s.ledger) == NOT_COMMITTED
    ensures Run(s, Steps(p, 3)).births == s.births + [s.procs[p].artifact]
  {
    StepsOnce(s, p, 3);
    MigrationSucceeds(s, p);
    BornCheckToWrite(Advance(s, p, true), p);
  }

  lemma MigrationSucceeds(s: State, p: Pid)
    requires p in s.procs && s.procs[p].pc == AtMigrate && ClassifyCommit(s.ledger) == NOT_COMMITTED
    ensures var t := Advance(s, p, true);
      && p in t.procs && t.procs[p].pc == AtBornCheck && t.procs[p].artifact == s.procs[p].artifact
      && AcceptsBirth(t.ledger) && t.births == s.births
  {
  }

  lemma BornCheckPasses(s: State, p: Pid)
    requires p in s.procs && s.procs[p].pc == AtBornCheck && AcceptsBirth(s.ledger)
    ensures var t := Advance(s, p, true);
      && p in t.procs && t.procs[p].pc == AtWrite && t.procs[p].artifact == s.procs[p].artifact
      && t.ledger == s.ledger && t.births == s.births
  {
  }

  lemma BornCheckToWrite(s: State, p: Pid)
    requires p in s.procs && s.procs[p].pc == AtBornCheck && AcceptsBirth(s.ledger)
    ensures Run(s, Steps(p, 2)).births == s.births + [s.procs[p].artifact]
  {
    StepsOnce(s, p, 2);
    BornCheckPasses(s, p);
    WriteStep(Advance(s, p, true), p);
  }

  lemma WriteStep(s: State, p: Pid)
    requires p in s.procs && s.procs[p].pc == AtWrite && AcceptsBirth(s.ledger)
    ensures Run(s, Steps(p, 1)).births == s.births + [s.procs[p].artifact]
  {
    StepsOnce(s, p, 1);
    RunOfNone(Advance(s, p, true));
  }

  lemma RunOfNone(s: State)
    ensures Run(s, []) == s
  {
  }

  /** Nothing but ceremony steps and crashes. */
  predicate OrdinaryActions(acts: seq<Action>) {
    forall i :: 0 <= i < |acts| ==> acts[i].Step? || acts[i].Crash?
  }

  /** The condition cannot be dropped: from any reachable unsafe state the second write is a few
      ordinary steps away (whoever holds the latch dies, the stale process goes on). */
  lemma UnsafeStatesCanWriteTwice(l: Ledger, acts: seq<Action>, p: Pid) returns (more: seq<Action>)
    requires StaleCheck(Run(Start(l), acts), p)
    ensures !Distinct(Run(Start(l), acts + more).births)
    ensures OrdinaryActions(more)
  {
    RunIsDisciplined(l, acts);
    more := SecondWrite(Run(Start(l), acts), p);
    RunOfConcat(Start(l), acts, more);
  }

  lemma SecondWrite(s: State, p: Pid) returns (more: seq<Action>)
    requires Disciplined(s) && StaleCheck(s, p)
    ensures !Distinct(Run(s, more).births)
    ensures OrdinaryActions(more)
  {
    StepsAreSteps(p, 5);
    if s.procs[p].pc == AtClassify {
      more := Steps(p, 5);
      ClassifyToWrite(s, p);
    } else if s.latch.None? {
      more := [Step(p, true)] + Steps(p, 5);
      LatchToWrite(s, p);
    } else {
      var q := s.latch.value;
      more := [Crash(q)] + ([Step(p, true)] + Steps(p, 5));
      RunOfTwo(s, Crash(q), [Step(p, true)] + Steps(p, 5));
      LatchToWrite(Stop(s, q), p);
    }
    RepeatIsNotDistinct(s.births, s.procs[p].artifact);
  }

  lemma RepeatIsNotDistinct(births: seq<Artifact>, a: Artifact)
    requires a in births
    ensures !Distinct(births + [a])
  {
    var i :| 0 <= i < |births| && births[i] == a;
    assert (births + [a])[i] == (births + [a])[|births|];
  }

  lemma LatchToWrite(s: State, p: Pid)
    requires p in s.procs && s.procs[p].pc == AtLatch && s.latch.None? && ClassifyCommit(s.ledger) == NOT_COMMITTED
    ensures Run(s, [Step(p, true)] + Steps(p, 5)).births == s.births + [s.procs[p].artifact]
  {
    RunOfTwo(s, Step(p, true), Steps(p, 5));
    ClassifyToWrite(Advance(s, p, true), p);
  }

  lemma {:induction false} StepsAreSteps(p: Pid, n: nat)
    ensures forall i :: 0 <= i < |Steps(p, n)| ==> Steps(p, n)[i].Step?
  {
    if n == 0 {
    } else {
      StepsAreSteps(p, n - 1);
    }
  }

  /** Exactly the safe runs are the ones after which, and after every prefix of which, no ordinary
      continuation can repeat a write. */
  lemma OnceExactlyWhenSafe(l: Ledger, acts: seq<Action>)
    ensures (forall k :: 0 <= k <= |acts| ==> Safe(Run(Start(l), acts[..k]))) ==> Distinct(Run(Start(l), acts).births)
    ensures forall k :: 0 <= k <= |acts| && !Safe(Run(Start(l), acts[..k])) ==>
      exists more :: OrdinaryActions(more) && !Distinct(Run(Start(l), acts[..k] + more).births)
  {
    if forall k :: 0 <= k <= |acts| ==> Safe(Run(Start(l), acts[..k])) {
      SafeRunsWriteOnce(l, acts);
    }
    forall k | 0 <= k <= |acts| && !Safe(Run(Start(l), acts[..k]))
      ensures exists more :: OrdinaryActions(more) && !Distinct(Run(Start(l), acts[..k] + more).births)
    {
      var p :| StaleCheck(Run(Start(l), acts[..k]), p);
      var more := UnsafeStatesCanWriteTwice(l, acts[..k], p);
    }
  }

  // ----- runs nobody disturbs -----------------------------------------------------------------------------

  /** The file is replaced only while no ceremony is past its marker check. This covers ceremonies
      that never overlap, with replacements between them, and overlapping ceremonies without any. */
  predicate Undisturbed(s: State, act: Action) {
    act.Replace? ==> forall p :: p in s.procs ==> Stage(s.procs[p].pc) <= Stage(AtMarkerCheck)
  }

  ghost predicate UndisturbedRun(l: Ledger, acts: seq<Action>) {
    forall k :: 0 <= k < |acts| ==> Undisturbed(Run(Start(l), acts[..k]), acts[k])
  }

  /** As long as nobody disturbs them, processes past the marker check find a used authorization's
      birth still in the file, and a process past classification finds the ledger unborn. */
  ghost predicate LedgerTellsTruth(s: State) {
    && Safe(s)
    && forall p :: p in s.procs && AboutToWrite(s.procs[p].pc) ==>
         ClassifyCommit(s.ledger) == NOT_COMMITTED
  }

  /** The step relation on ledgers: unborn content stays unborn except by a write, and once the
      ledger is not unborn no step makes it so. */
  lemma AdvanceAndClass(s: State, p: Pid, ok: bool)
    requires p in s.procs
    ensures ClassifyCommit(s.ledger) != NOT_COMMITTED ==>
      ClassifyCommit(Advance(s, p, ok).ledger) != NOT_COMMITTED || Stage(s.procs[p].pc) == Stage(AtMigrate)
    ensures ClassifyCommit(s.ledger) == NOT_COMMITTED && Advance(s, p, ok).births == s.births ==>
      ClassifyCommit(Advance(s, p, ok).ledger) == NOT_COMMITTED
    ensures Advance(s, p, ok).births != s.births ==>
      s.procs[p].pc == AtWrite && ClassifyCommit(Advance(s, p, ok).ledger) != NOT_COMMITTED
  {
    if s.procs[p].pc == AtWrite && ok && AcceptsBirth(s.ledger) {
      assert WithBirth(s.ledger, s.procs[p].artifact).anchor.Some?;
    }
  }

  lemma AdvanceEntry(s: State, p: Pid, ok: bool)
    requires p in s.procs && p in Advance(s, p, ok).procs
    ensures Advance(s, p, ok).procs[p].artifact == s.procs[p].artifact
    ensures Stage(Advance(s, p, ok).procs[p].pc) == Stage(s.procs[p].pc) + 1
    ensures s.procs[p].pc == AtClassify ==> ClassifyCommit(s.ledger) == NOT_COMMITTED
    ensures s.procs[p].pc == AtMarkerCheck ==> s.procs[p].artifact !in s.markers
  {
    EntryGoesOn(s, p, ok);
    EntryPassed(s, p, ok);
  }

  lemma EntryGoesOn(s: State, p: Pid, ok: bool)
    requires p in s.procs && p in Advance(s, p, ok).procs
    ensures Advance(s, p, ok).procs[p].artifact == s.procs[p].artifact
    ensures Stage(Advance(s, p, ok).procs[p].pc) == Stage(s.procs[p].pc) + 1
  {
  }

  lemma EntryPassed(s: State, p: Pid, ok: bool)
    requires p in s.procs && p in Advance(s, p, ok).procs
    ensures s.procs[p].pc == AtClassify ==> ClassifyCommit(s.ledger) == NOT_COMMITTED
    ensures s.procs[p].pc == AtMarkerCheck ==> s.procs[p].artifact !in s.markers
  {
  }

  lemma AdvanceKeepsTruth(s: State, p: Pid, ok: bool)
    requires Disciplined(s) && LedgerTellsTruth(s) && p in s.procs
    ensures LedgerTellsTruth(Advance(s, p, ok))
  {
    var t := Advance(s, p, ok);
    AdvanceKeepsDiscipline(s, p, ok);
    AdvanceOnlyMoves(s, p, ok);
    AdvanceAndClass(s, p, ok);
    TruthMoves(s, t, p, ok);
  }

  lemma TruthMoves(s: State, t: State, p: Pid, ok: bool)
    requires Disciplined(s) && Disciplined(t) && LedgerTellsTruth(s) && p in s.procs && t == Advance(s, p, ok)
    ensures LedgerTellsTruth(t)
  {
    AdvanceOnlyMoves(s, p, ok);
    AdvanceAndClass(s, p, ok);
    forall q ensures !StaleCheck(t, q) {
      StaleMoves(s, p, ok, q);
    }
    forall q | q in t.procs && AboutToWrite(t.procs[q].pc)
      ensures ClassifyCommit(t.ledger) == NOT_COMMITTED
    {
      if q == p {
        AdvanceEntry(s, p, ok);
      }
    }
  }

  lemma StaleMoves(s: State, p: Pid, ok: bool, q: Pid)
    requires Disciplined(s) && LedgerTellsTruth(s) && p in s.procs
    ensures !StaleCheck(Advance(s, p, ok), q)
  {
    var t := Advance(s, p, ok);
    AdvanceAndClass(s, p, ok);
    AdvanceOnlyMoves(s, p, ok);
    assert !StaleCheck(s, q);
    if q == p && p in t.procs {
      AdvanceEntry(s, p, ok);
    }
  }

  lemma NextKeepsTruth(s: State, act: Action)
    requires Disciplined(s) && LedgerTellsTruth(s) && Undisturbed(s, act)
    ensures LedgerTellsTruth(Next(s, act))
  {
    var t := Next(s, act);
    if act.Step? && act.p in s.procs {
      AdvanceKeepsTruth(s, act.p, act.ok);
    } else {
      forall p ensures !StaleCheck(t, p) {
        assert !StaleCheck(s, p);
      }
    }
  }

  lemma {:induction false} UndisturbedRunsWriteOnce(l: Ledger, acts: seq<Action>)
    requires UndisturbedRun(l, acts)
    ensures Distinct(Run(Start(l), acts).births)
    ensures OnceOnly(Run(Start(l), acts)) && LedgerTellsTruth(Run(Start(l), acts))
  {
    if acts == [] {
    } else {
      var before := acts[..|acts| - 1];
      forall k | 0 <= k < |before| ensures Undisturbed(Run(Start(l), before[..k]), before[k]) {
        assert before[..k] == acts[..k];
      }
      UndisturbedRunsWriteOnce(l, before);
      RunIsDisciplined(l, before);
      assert Undisturbed(Run(Start(l), acts[..|acts| - 1]), acts[|acts| - 1]);
      NextKeepsOnce(Run(Start(l), before), acts[|acts| - 1]);
      NextKeepsTruth(Run(Start(l), before), acts[|acts| - 1]);
    }
  }

  // ----- refusals before the claim leave no trace -----------------------------------------------------------

  /** Between its Begin and its claim a process changes neither content nor markers; afterwards its
      authorization is spent. */
  lemma StepBeforeClaimChangesNothing(s: State, p: Pid, ok: bool)
    requires p in s.procs && Stage(s.procs[p].pc) <= Stage(AtClaim)
    ensures SameContent(s.ledger, Advance(s, p, ok).ledger)
    ensures Advance(s, p, ok).births == s.births
    ensures Advance(s, p, ok).markers != s.markers ==>
      p in Advance(s, p, ok).procs && Advance(s, p, ok).procs[p].pc == AtMigrate
  {
  }

  /** Drive one process with the world's answers until it stops or they run out. */
  function Drive(s: State, p: Pid, oks: seq<bool>): State
    decreases |oks|
  {
    if oks == [] || p !in s.procs then s else Drive(Advance(s, p, oks[0]), p, oks[1..])
  }

  /** A ceremony that ends without its claim on disk has left the ledger and all markers as they were. */
  lemma {:induction false} UnclaimedMeansUntouched(s: State, p: Pid, oks: seq<bool>)
    requires p in s.procs && Stage(s.procs[p].pc) <= Stage(AtClaim)
    requires s.procs[p].artifact !in Drive(s, p, oks).markers
    ensures SameContent(s.ledger, Drive(s, p, oks).ledger)
    ensures Drive(s, p, oks).markers == s.markers && Drive(s, p, oks).births == s.births
    decreases |oks|
  {
    if oks == [] {
    } else {
      var t := Advance(s, p, oks[0]);
      StepBeforeClaimChangesNothing(s, p, oks[0]);
      MarkersStay(t, p, oks[1..]);
      if p in t.procs && t.procs[p].pc != AtMigrate {
        UnclaimedMeansUntouched(t, p, oks[1..]);
      }
    }
  }

  lemma {:induction false} MarkersStay(s: State, p: Pid, oks: seq<bool>)
    ensures s.markers.Keys <= Drive(s, p, oks).markers.Keys
    decreases |oks|
  {
    if oks == [] || p !in s.procs {
    } else {
      MarkersStay(Advance(s, p, oks[0]), p, oks[1..]);
    }
  }

  /** A used authorization is refused at the marker check, whatever has become of the ledger. */
  lemma SpentAuthorizationIsRefused(s: State, p: Pid, oks: seq<bool>)
    requires p in s.procs && s.procs[p].pc == AtMarkerCheck && s.procs[p].artifact in s.markers && oks != []
    ensures Drive(s, p, oks) == Stop(s, p)
  {
  }

  // ----- a spent authorization stays spent --------------------------------------------------------------------

  /** The authorization has its marker, and process p, if it works on it, has not passed the marker check. */
  predicate Barred(s: State, p: Pid, a: Artifact) {
    && a in s.markers
    && (p in s.procs && s.procs[p].artifact == a ==> Stage(s.procs[p].pc) <= Stage(AtMarkerCheck))
  }

  lemma AdvanceKeepsBarred(s: State, q: Pid, ok: bool, p: Pid, a: Artifact)
    requires Barred(s, p, a) && q in s.procs
    ensures Barred(Advance(s, q, ok), p, a)
    ensures q == p && s.procs[p].artifact == a ==> Advance(s, q, ok).births == s.births
  {
  }

  lemma NextKeepsBarred(s: State, act: Action, p: Pid, a: Artifact)
    requires Barred(s, p, a)
    ensures Barred(Next(s, act), p, a)
  {
    if act.Step? && act.p in s.procs {
      AdvanceKeepsBarred(s, act.p, act.ok, p, a);
    }
  }

  lemma {:induction false} RunKeepsBarred(s: State, acts: seq<Action>, p: Pid, a: Artifact)
    requires Barred(s, p, a)
    ensures Barred(Run(s, acts), p, a)
  {
    if acts == [] {
    } else {
      RunKeepsBarred(s, acts[..|acts| - 1], p, a);
      NextKeepsBarred(Run(s, acts[..|acts| - 1]), acts[|acts| - 1], p, a);
    }
  }

  /** A process begun on an authorization that has its marker never makes a birth write with it, whatever
      happens meanwhile: other processes, crashes, a deleted or replaced ledger. */
  lemma BegunOnSpentNeverWrites(s: State, p: Pid, a: Artifact, acts: seq<Action>, ok: bool)
    requires a in s.markers && p !in s.procs
    ensures var t := Run(Next(s, Begin(p, a)), acts);
      p in t.procs && t.procs[p].artifact == a ==> Next(t, Step(p, ok)).births == t.births
  {
    var t := Run(Next(s, Begin(p, a)), acts);
    RunKeepsBarred(Next(s, Begin(p, a)), acts, p, a);
    if p in t.procs {
      AdvanceKeepsBarred(t, p, ok, p, a);
    }
  }

  lemma CountStays(s: State, act: Action, a: Artifact)
    requires forall p :: Barred(s, p, a)
    ensures multiset(Next(s, act).births)[a] == multiset(s.births)[a]
  {
    if act.Step? && act.p in s.procs {
      assert Barred(s, act.p, a);
      AdvanceKeepsBarred(s, act.p, act.ok, act.p, a);
      AdvanceBirthsAtWrite(s, act.p, act.ok);
    }
  }

  /** Once no process works on it past the marker check, an authorization with a marker is never used again. */
  lemma {:induction false} AuthorizationStaysSpent(s: State, acts: seq<Action>, a: Artifact)
    requires forall p :: Barred(s, p, a)
    ensures multiset(Run(s, acts).births)[a] == multiset(s.births)[a]
  {
    if acts == [] {
    } else {
      var before := acts[..|acts| - 1];
      AuthorizationStaysSpent(s, before, a);
      forall p ensures Barred(Run(s, before), p, a) {
        RunKeepsBarred(s, before, p, a);
      }
      CountStays(Run(s, before), acts[|acts| - 1], a);
    }
  }

  // ----- one ceremony after the other ---------------------------------------------------------------------------

  /** The steps of one process, with the world's answers. */
  function StepsWith(p: Pid, oks: seq<bool>): seq<Action> {
    if oks == [] then [] else [Step(p, oks[0])] + StepsWith(p, oks[1..])
  }

  lemma {:induction false} IdleSteps(s: State, p: Pid, oks: seq<bool>)
    requires p !in s.procs
    ensures Run(s, StepsWith(p, oks)) == s
  {
    if oks == [] {
      RunOfNone(s);
    } else {
      RunOfTwo(s, Step(p, oks[0]), StepsWith(p, oks[1..]));
      IdleSteps(s, p, oks[1..]);
    }
  }

  /** Driving one process is a run of its steps. */
  lemma {:induction false} DriveIsRun(s: State, p: Pid, oks: seq<bool>)
    ensures Drive(s, p, oks) == Run(s, StepsWith(p, oks))
    decreases |oks|
  {
    if oks == [] {
      RunOfNone(s);
    } else if p !in s.procs {
      IdleSteps(s, p, oks);
    } else {
      RunOfTwo(s, Step(p, oks[0]), StepsWith(p, oks[1..]));
      DriveIsRun(Advance(s, p, oks[0]), p, oks[1..]);
    }
  }

  lemma {:induction false} DriveLandsWell(s: State, p: Pid, oks: seq<bool>)
    requires LandsWell(s, p)
    ensures LandsWell(Drive(s, p, oks), p) && Drive(s, p, oks).procs.Keys <= s.procs.Keys
    decreases |oks|
  {
    if oks == [] || p !in s.procs {
    } else {
      AdvanceLandsWell(s, p, oks[0]);
      AdvanceAddsNobody(s, p, oks[0]);
      DriveLandsWell(Advance(s, p, oks[0]), p, oks[1..]);
    }
  }

  lemma AdvanceAddsNobody(s: State, p: Pid, ok: bool)
    requires p in s.procs
    ensures Advance(s, p, ok).procs.Keys <= s.procs.Keys
  {
  }

  /** One call of the transaction with nobody else at work: perhaps the ledger file is replaced first;
      the process begins, takes its steps as far as the answers go, and is gone. */
  datatype Ceremony = Ceremony(p: Pid, artifact: Artifact, oks: seq<bool>, replaced: Option<Ledger>)

  function CallActs(c: Ceremony): seq<Action> {
    [Begin(c.p, c.artifact)] + (StepsWith(c.p, c.oks) + [Crash(c.p)])
  }

  function CeremonyActs(c: Ceremony): seq<Action> {
    (if c.replaced.Some? then [Replace(c.replaced.value)] else []) + CallActs(c)
  }

  function AllActs(cs: seq<Ceremony>): seq<Action> {
    if cs == [] then [] else AllActs(cs[..|cs| - 1]) + CeremonyActs(cs[|cs| - 1])
  }

  function Begun(s: State, p: Pid, a: Artifact): State {
    s.(procs := map[p := Proc(a, AtQuiesce, false)])
  }

  lemma CallIsDrive(s: State, c: Ceremony)
    requires s.procs == map[]
    ensures Run(s, CallActs(c)) == Stop(Drive(Begun(s, c.p, c.artifact), c.p, c.oks), c.p)
  {
    var t := Begun(s, c.p, c.artifact);
    RunOfTwo(s, Begin(c.p, c.artifact), StepsWith(c.p, c.oks) + [Crash(c.p)]);
    RunOfConcat(t, StepsWith(c.p, c.oks), [Crash(c.p)]);
    DriveIsRun(t, c.p, c.oks);
    RunOfOne(Drive(t, c.p, c.oks), Crash(c.p));
  }

  lemma CallLeavesNobody(s: State, c: Ceremony)
    requires s.procs == map[] && s.latch.None?
    ensures Run(s, CallActs(c)).procs == map[] && Run(s, CallActs(c)).latch.None?
  {
    var t := Begun(s, c.p, c.artifact);
    CallIsDrive(s, c);
    DriveLandsWell(t, c.p, c.oks);
    DriveLatches(t, c.p, c.oks);
  }

  lemma {:induction false} DriveLatches(s: State, p: Pid, oks: seq<bool>)
    requires s.latch.None? || s.latch == Some(p)
    ensures Drive(s, p, oks).latch.None? || Drive(s, p, oks).latch == Some(p)
    decreases |oks|
  {
    if oks == [] || p !in s.procs {
    } else {
      DriveLatches(Advance(s, p, oks[0]), p, oks[1..]);
    }
  }

  lemma CeremonyLeavesNobody(s: State, c: Ceremony)
    requires s.procs == map[] && s.latch.None?
    ensures Run(s, CeremonyActs(c)).procs == map[] && Run(s, CeremonyActs(c)).latch.None?
  {
    if c.replaced.Some? {
      RunOfTwo(s, Replace(c.replaced.value), CallActs(c));
      CallLeavesNobody(s.(ledger := c.replaced.value), c);
    } else {
      assert [] + CallActs(c) == CallActs(c);
      CallLeavesNobody(s, c);
    }
  }

  lemma {:induction false} StepsAreNoReplacements(p: Pid, oks: seq<bool>)
    ensures forall i :: 0 <= i < |StepsWith(p, oks)| ==> StepsWith(p, oks)[i].Step?
  {
    if oks == [] {
    } else {
      StepsAreNoReplacements(p, oks[1..]);
    }
  }

  lemma OnlyFirstReplaces(c: Ceremony)
    ensures forall i :: 0 < i < |CeremonyActs(c)| ==> !CeremonyActs(c)[i].Replace?
  {
    StepsAreNoReplacements(c.p, c.oks);
  }

  lemma UndisturbedByCeremony(l: Ledger, acts: seq<Action>, c: Ceremony)
    requires UndisturbedRun(l, acts) && Run(Start(l), acts).procs == map[]
    ensures UndisturbedRun(l, acts + CeremonyActs(c))
  {
    var all := acts + CeremonyActs(c);
    OnlyFirstReplaces(c);
    forall k | 0 <= k < |all| ensures Undisturbed(Run(Start(l), all[..k]), all[k]) {
      if k < |acts| {
        assert all[..k] == acts[..k] && all[k] == acts[k];
      } else if k == |acts| {
        assert all[..k] == acts;
      } else {
        assert all[k] == CeremonyActs(c)[k - |acts|];
      }
    }
  }

  lemma {:induction false} CeremoniesAreUndisturbed(l: Ledger, cs: seq<Ceremony>)
    ensures UndisturbedRun(l, AllActs(cs))
    ensures Run(Start(l), AllActs(cs)).procs == map[] && Run(Start(l), AllActs(cs)).latch.None?
  {
    if cs == [] {
      RunOfNone(Start(l));
    } else {
      var before, c := AllActs(cs[..|cs| - 1]), cs[|cs| - 1];
      CeremoniesAreUndisturbed(l, cs[..|cs| - 1]);
      UndisturbedByCeremony(l, before, c);
      RunOfConcat(Start(l), before, CeremonyActs(c));
      CeremonyLeavesNobody(Run(Start(l), before), c);
    }
  }

  /** Any number of calls, one after the other, each of which may end anywhere, with the ledger deleted or
      replaced between them: no authorization is used twice. */
  lemma CeremoniesWriteOnce(l: Ledger, cs: seq<Ceremony>)
    ensures Distinct(Run(Start(l), AllActs(cs)).births)
  {
    CeremoniesAreUndisturbed(l, cs);
    UndisturbedRunsWriteOnce(l, AllActs(cs));
  }

  // ----- the unsafe state is reachable ----------------------------------------------------------------------------

  lemma {:induction false} StepsLeaveOthers(s: State, p: Pid, n: nat, q: Pid)
    requires p != q && q in s.procs
    ensures q in Run(s, Steps(p, n)).procs && Run(s, Steps(p, n)).procs[q] == s.procs[q]
    decreases n
  {
    if n == 0 {
      RunOfNone(s);
    } else {
      RunOfTwo(s, Step(p, true), Steps(p, n - 1));
      if p in s.procs {
        AdvanceLeavesOthers(s, p, true, q);
      }
      StepsLeaveOthers(Next(s, Step(p, true)), p, n - 1, q);
    }
  }

  lemma AdvanceLeavesOthers(s: State, p: Pid, ok: bool, q: Pid)
    requires p in s.procs && p != q && q in s.procs
    ensures q in Advance(s, p, ok).procs && Advance(s, p, ok).procs[q] == s.procs[q]
  {
  }

  /** The steps before the latch, from wherever the process stands: quiesce, proof and marker check. */
  lemma {:induction false} StepsToLatch(s: State, p: Pid, n: nat)
    requires p in s.procs && Stage(s.procs[p].pc) + n == Stage(AtLatch) && s.procs[p].artifact !in s.markers
    ensures Run(s, Steps(p, n)) == Goto(s, p, AtLatch)
    decreases n
  {
    if n == 0 {
      RunOfNone(s);
      GotoSelf(s, p);
    } else {
      var t := Advance(s, p, true);
      StepsOnce(s, p, n);
      EarlyStep(s, p);
      StepsToLatch(t, p, n - 1);
      GotoTwice(s, p, t.procs[p].pc, AtLatch);
    }
  }

  lemma EarlyStep(s: State, p: Pid)
    requires p in s.procs && Stage(s.procs[p].pc) < Stage(AtLatch) && s.procs[p].artifact !in s.markers
    ensures var t := Advance(s, p, true);
      p in t.procs && t == Goto(s, p, t.procs[p].pc) && Stage(t.procs[p].pc) == Stage(s.procs[p].pc) + 1
  {
  }

  lemma GotoSelf(s: State, p: Pid)
    requires p in s.procs && Stage(s.procs[p].pc) == Stage(AtLatch)
    ensures Goto(s, p, AtLatch) == s
  {
    assert s.procs[p := s.procs[p]] == s.procs;
  }

  lemma GotoTwice(s: State, p: Pid, pc: Pc, to: Pc)
    requires p in s.procs
    ensures Goto(Goto(s, p, pc), p, to) == Goto(s, p, to)
  {
    assert s.procs[p := s.procs[p].(pc := pc)][p := s.procs[p].(pc := to)] == s.procs[p := s.procs[p].(pc := to)];
  }

  /** Process 1 runs up to its birth write while process 0 waits behind its marker check. */
  lemma RivalWrites(s: State, a: Artifact)
    requires s.latch.None? && ClassifyCommit(s.ledger) == NOT_COMMITTED && a !in s.markers
    requires 0 in s.procs && 1 !in s.procs
    ensures var t := Run(s, [Begin(1, a)] + (Steps(1, 3) + Steps(1, 6)));
      && 0 in t.procs && t.procs[0] == s.procs[0]
      && t.births == s.births + [a]
  {
    var s1 := Next(s, Begin(1, a));
    var s2 := Run(s1, Steps(1, 3));
    RunOfTwo(s, Begin(1, a), Steps(1, 3) + Steps(1, 6));
    RunOfConcat(s1, Steps(1, 3), Steps(1, 6));
    StepsToLatch(s1, 1, 3);
    LatchToWrite(s2, 1);
    assert Steps(1, 6) == [Step(1, true)] + Steps(1, 5);
    StepsLeaveOthers(s1, 1, 3, 0);
    StepsLeaveOthers(s2, 1, 6, 0);
  }

  /** Two processes begin on one authorization and pass the marker check, one of them writes, and the file
      is deleted under the other: a run from any unborn ledger to an unsafe state. */
  lemma UnsafeStateIsReachable(l: Ledger, a: Artifact) returns (acts: seq<Action>)
    requires ClassifyCommit(l) == NOT_COMMITTED
    ensures StaleCheck(Run(Start(l), acts), 0)
  {
    var s1 := Next(Start(l), Begin(0, a));
    StepsToLatch(s1, 0, 3);
    var rest := RivalThenDelete(Goto(s1, 0, AtLatch), a);
    RunOfConcat(s1, Steps(0, 3), rest);
    RunOfTwo(Start(l), Begin(0, a), Steps(0, 3) + rest);
    acts := [Begin(0, a)] + (Steps(0, 3) + rest);
  }

  lemma RivalThenDelete(s: State, a: Artifact) returns (acts: seq<Action>)
    requires s.latch.None? && ClassifyCommit(s.ledger) == NOT_COMMITTED && a !in s.markers
    requires 0 in s.procs && 1 !in s.procs && s.procs[0].pc == AtLatch && s.procs[0].artifact == a
    ensures StaleCheck(Run(s, acts), 0)
  {
    var rival := [Begin(1, a)] + (Steps(1, 3) + Steps(1, 6));
    RivalWrites(s, a);
    RunOfOne(Run(s, rival), Replace(Missing));
    RunOfConcat(s, rival, [Replace(Missing)]);
    acts := rival + [Replace(Missing)];
    assert (s.births + [a])[|s.births|] == a;
  }

  /** So overlapping transactions and a deleted ledger do make two births on one authorization. */
  lemma TwoBirthsHappen(l: Ledger, a: Artifact) returns (acts: seq<Action>)
    requires ClassifyCommit(l) == NOT_COMMITTED
    ensures !Distinct(Run(Start(l), acts).births)
  {
    var unsafe := UnsafeStateIsReachable(l, a);
    var more := UnsafeStatesCanWriteTwice(l, unsafe, 0);
    acts := unsafe + more;
  }
}

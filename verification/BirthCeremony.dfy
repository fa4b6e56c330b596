/** The birth transaction as the script runs it: one process, its disk and its answers
    (scripts/birth_ceremony.py, `run_transaction`). */
module BirthCeremony {
  import opened Wrappers
  import opened BirthTransaction

  datatype Outcome =
    | QuiesceRefused
    | ReceiptRefused
    | AlreadyExecuted
    | LatchRefused       // another live owner, or an unreadable target
    | NotUnborn(class_: Class)
    | Interrupted        // an exception between the claim and the end
    | Unverified(class_: Class)
    | Born(turn: nat)

  const STEPS := 12

  predicate CommittedMarker(markers: map<Artifact, MarkerState>, a: Artifact) {
    a in markers && markers[a] == Committed
  }

  lemma DriveOnce(s: State, p: Pid, oks: seq<bool>, k: nat)
    requires p in s.procs && k < |oks|
    ensures Drive(s, p, oks[k..]) == Drive(Advance(s, p, oks[k]), p, oks[k + 1..])
  {
    assert oks[k..][0] == oks[k] && oks[k..][1..] == oks[k + 1..];
  }

  /** The refusals before the lease are passed. */
  predicate Authorized(markers: map<Artifact, MarkerState>, a: Artifact, oks: seq<bool>)
    requires |oks| == STEPS
  {
    oks[0] && oks[1] && a !in markers
  }

  predicate Leased(l: Ledger, latch: Option<Pid>, oks: seq<bool>)
    requires |oks| == STEPS
  {
    latch.None? && oks[3] && !l.Unreadable?
  }

  /** Claim, migration, write and marker rewrite all go through. */
  predicate Carried(oks: seq<bool>)
    requires |oks| == STEPS
  {
    oks[5] && oks[6] && oks[8] && oks[9]
  }

  /** The hash chain below the birth row holds. */
  predicate Sound(l: Ledger) {
    l.Maez? ==> l.chained
  }

  /** The transaction goes through: authorized, leased, unborn, every write successful, and the chain sound. */
  predicate BirthSucceeds(l: Ledger, markers: map<Artifact, MarkerState>, latch: Option<Pid>, a: Artifact,
                          oks: seq<bool>)
    requires |oks| == STEPS
  {
    && Authorized(markers, a, oks) && Leased(l, latch, oks)
    && ClassifyCommit(l) == NOT_COMMITTED && Carried(oks) && Sound(l)
  }

  /** What each outcome says about the state and the answers before. The cases exclude each other and
      leave none out, so each is the exact condition of its outcome. */
  predicate Explains(o: Outcome, l: Ledger, markers: map<Artifact, MarkerState>, latch: Option<Pid>, a: Artifact,
                     oks: seq<bool>)
    requires |oks| == STEPS
  {
    match o
    case QuiesceRefused => !oks[0]
    case ReceiptRefused => oks[0] && !oks[1]
    case AlreadyExecuted => oks[0] && oks[1] && a in markers
    case LatchRefused => Authorized(markers, a, oks) && !Leased(l, latch, oks)
    case NotUnborn(_) =>
      Authorized(markers, a, oks) && Leased(l, latch, oks) && ClassifyCommit(l) != NOT_COMMITTED
    case Interrupted =>
      Authorized(markers, a, oks) && Leased(l, latch, oks) && ClassifyCommit(l) == NOT_COMMITTED && !Carried(oks)
    case Unverified(_) =>
      && Authorized(markers, a, oks) && Leased(l, latch, oks)
      && ClassifyCommit(l) == NOT_COMMITTED && Carried(oks) && !Sound(l)
    case Born(_) => BirthSucceeds(l, markers, latch, a, oks)
  }

  lemma OutcomesAreExact(l: Ledger, markers: map<Artifact, MarkerState>, latch: Option<Pid>, a: Artifact,
                         oks: seq<bool>)
    requires |oks| == STEPS
    ensures forall o :: Explains(o, l, markers, latch, a, oks) ==>
      && (o.Born? <==> BirthSucceeds(l, markers, latch, a, oks))
      && (o.QuiesceRefused? <==> !oks[0])
      && (o.ReceiptRefused? <==> oks[0] && !oks[1])
      && (o.AlreadyExecuted? <==> oks[0] && oks[1] && a in markers)
  {
  }

  /** The conditions of the outcomes, spelled out. */
  lemma ExplainsMeans(o: Outcome, l: Ledger, markers: map<Artifact, MarkerState>, latch: Option<Pid>, a: Artifact,
                      oks: seq<bool>)
    requires |oks| == STEPS && Explains(o, l, markers, latch, a, oks)
    ensures o.QuiesceRefused? <==> !oks[0]
    ensures o.ReceiptRefused? <==> oks[0] && !oks[1]
    ensures o.AlreadyExecuted? <==> oks[0] && oks[1] && a in markers
    ensures o.LatchRefused? <==> oks[0] && oks[1] && a !in markers && (latch.Some? || !oks[3] || l.Unreadable?)
    ensures o.NotUnborn? <==>
      && oks[0] && oks[1] && a !in markers && latch.None? && oks[3]
      && (l.NotALedger? || (l.Maez? && l.anchor.Some?))
    ensures o.Interrupted? <==>
      && oks[0] && oks[1] && a !in markers && latch.None? && oks[3]
      && (l.Missing? || l.ZeroBytes? || (l.Maez? && l.anchor.None?))
      && !(oks[5] && oks[6] && oks[8] && oks[9])
    ensures o.Unverified? <==>
      && oks[0] && oks[1] && a !in markers && latch.None? && oks[3] && oks[5] && oks[6] && oks[8] && oks[9]
      && l.Maez? && l.anchor.None? && !l.chained
  {
    ClassifyMeans(l);
  }

  /** A call with all its answers ends with the process gone. */
  lemma CallEndsGone(s: State, p: Pid, a: Artifact, oks: seq<bool>)
    requires |oks| == STEPS && s.procs == map[] && s.latch != Some(p)
    ensures Drive(Begun(s, p, a), p, oks) == Run(s, CallActs(Ceremony(p, a, oks, None)))
    ensures Drive(Begun(s, p, a), p, oks).procs == map[]
  {
    var t := Begun(s, p, a);
    CallIsDrive(s, Ceremony(p, a, oks, None));
    DriveLandsWell(t, p, oks);
    DriveEnds(t, p, oks);
  }

  /** Every step goes on or ends, so twelve of them are enough. */
  lemma {:induction false} DriveEnds(s: State, p: Pid, oks: seq<bool>)
    requires p in s.procs ==> Stage(s.procs[p].pc) + |oks| >= STEPS
    ensures p !in Drive(s, p, oks).procs
    decreases |oks|
  {
    if oks == [] || p !in s.procs {
    } else {
      if p in Advance(s, p, oks[0]).procs {
        AdvanceEntry(s, p, oks[0]);
      }
      DriveEnds(Advance(s, p, oks[0]), p, oks[1..]);
    }
  }

  class Disk {
    var ledger: Ledger
    var markers: map<Artifact, MarkerState>
    var latch: Option<Pid>
    ghost var births: seq<Artifact>

    ghost function View(procs: map<Pid, Proc>): State
      reads this
    {
      State(ledger, markers, latch, procs, births)
    }

    constructor (l: Ledger)
      ensures View(map[]) == Start(l)
    {
      ledger, markers, latch, births := l, map[], None, [];
    }

    /** `oks[k]` is the world's answer at the k-th step. Whatever the answers, the disk ends where a run
        of the state machine ends that begins, steps and drops the process; and the outcome is exactly
        the one that ledger, markers, latch and answers determine. */
    method RunTransaction(p: Pid, artifact: Artifact, oks: seq<bool>) returns (outcome: Outcome)
      requires |oks| == STEPS && latch != Some(p)
      modifies this
      ensures View(map[]) == Run(old(View(map[])), CallActs(Ceremony(p, artifact, oks, None)))
      ensures Explains(outcome, old(ledger), old(markers), old(latch), artifact, oks)
      ensures outcome.Born? <==> BirthSucceeds(old(ledger), old(markers), old(latch), artifact, oks)
      ensures outcome.Born? ==>
        ClassifyCommit(ledger) == COMMITTED && births == old(births) + [artifact] && CommittedMarker(markers, artifact)
      // Born: one more turn, and it is the anchored birth event of this authorization.
      ensures outcome.Born? ==>
        && ledger.Maez? && ledger.chained && ledger.anchor == Some(outcome.turn)
        && |ledger.turns| == outcome.turn + 1 && ledger.turns[outcome.turn] == Turn(true, BirthEvent(artifact))
        && (old(ledger).Maez? ==> ledger.turns[..outcome.turn] == old(ledger).turns)
        && artifact in markers && markers[artifact] == Committed
      ensures outcome.Born? <==>
        && oks[0] && oks[1] && oks[3] && oks[5] && oks[6] && oks[8] && oks[9]
        && artifact !in old(markers) && old(latch).None?
        && (old(ledger).Missing? || old(ledger).ZeroBytes? ||
             (old(ledger).Maez? && old(ledger).anchor.None? && old(ledger).chained))
      // What is refused as committed is an intact ledger with an anchored birth event.
      ensures outcome == NotUnborn(COMMITTED) ==>
        && old(ledger).Maez? && old(ledger).chained
        && old(ledger).anchor.Some? && old(ledger).anchor.value < |old(ledger).turns|
        && old(ledger).turns[old(ledger).anchor.value].systemEvent
        && old(ledger).turns[old(ledger).anchor.value].payload.BirthEvent?
      ensures outcome.NotUnborn? && old(ledger).Maez? && outcome != NotUnborn(COMMITTED) ==>
        && outcome == NotUnborn(UNKNOWN) && old(ledger).anchor.Some?
        && (old(ledger).anchor.value >= |old(ledger).turns| || !old(ledger).chained ||
             !old(ledger).turns[old(ledger).anchor.value].systemEvent ||
             !old(ledger).turns[old(ledger).anchor.value].payload.BirthEvent?)
      ensures outcome.LatchRefused? || outcome.NotUnborn? ==>
        ledger == old(ledger) || (old(ledger).Missing? && ledger.ZeroBytes?)
      ensures outcome.Unverified? ==> outcome.class_ == ClassifyCommit(ledger) == UNKNOWN
      ensures outcome.QuiesceRefused? <==> !oks[0]
      ensures outcome.ReceiptRefused? <==> oks[0] && !oks[1]
      ensures outcome.AlreadyExecuted? <==> oks[0] && oks[1] && artifact in old(markers)
      ensures outcome.QuiesceRefused? || outcome.ReceiptRefused? || outcome.AlreadyExecuted? ==> unchanged(this)
      ensures outcome.LatchRefused? || outcome.NotUnborn? ==>
        births == old(births) && markers == old(markers) && SameContent(old(ledger), ledger)
      ensures outcome.NotUnborn? ==> outcome.class_ == ClassifyCommit(old(ledger)) != NOT_COMMITTED
    {
      CallEndsGone(View(map[]), p, artifact, oks);
      OutcomesAreExact(ledger, markers, latch, artifact, oks);
      ClassifyMeans(ledger);
      if ledger.Missing? || ledger.ZeroBytes? || (ledger.Maez? && ledger.anchor.None?) {
        BirthIsAnchored(ledger, artifact);
      }
      outcome := GatedPart(p, artifact, oks, Begun(View(map[]), p, artifact));
    }

    /** The refusals before the lease. */
    method GatedPart(p: Pid, artifact: Artifact, oks: seq<bool>, ghost begun: State) returns (outcome: Outcome)
      requires |oks| == STEPS && latch != Some(p)
      requires begun == View(map[p := Proc(artifact, AtQuiesce, false)])
      modifies this
      ensures View(map[]) == Drive(begun, p, oks)
      ensures Explains(outcome, old(ledger), old(markers), old(latch), artifact, oks)
      ensures outcome.Born? ==>
        ClassifyCommit(ledger) == COMMITTED && births == old(births) + [artifact] && CommittedMarker(markers, artifact)
      ensures outcome.Born? || outcome.Unverified? ==>
        ledger == WithBirth(Migrated(old(ledger)), artifact)
      ensures outcome.Born? ==> outcome.turn == |Migrated(old(ledger)).turns|
      ensures outcome.Unverified? ==> outcome.class_ == ClassifyCommit(ledger) == UNKNOWN
      ensures outcome.QuiesceRefused? || outcome.ReceiptRefused? || outcome.AlreadyExecuted? ==> unchanged(this)
      ensures outcome.LatchRefused? || outcome.NotUnborn? ==>
        births == old(births) && markers == old(markers) && SameContent(old(ledger), ledger)
      ensures outcome.NotUnborn? ==> outcome.class_ == ClassifyCommit(old(ledger)) != NOT_COMMITTED
    {
      ghost var s := begun;
      assert oks[0..] == oks;

      // every writer-capable surface provably stopped
      DriveOnce(s, p, oks, 0);
      s := Advance(s, p, oks[0]);
      if !oks[0] {
        assert s.procs == map[];
        return QuiesceRefused;
      }

      // the consumed authorization, proved again from the store
      DriveOnce(s, p, oks, 1);
      s := Advance(s, p, oks[1]);
      if !oks[1] {
        assert s.procs == map[];
        return ReceiptRefused;
      }

      DriveOnce(s, p, oks, 2);
      s := Advance(s, p, oks[2]);
      if artifact in markers {
        assert s.procs == map[];
        return AlreadyExecuted;
      }

      outcome := LeasedPart(p, artifact, oks, s);
    }

    /** From the construction of the enabled writer on: everything below holds the owner latch. */
    method LeasedPart(p: Pid, artifact: Artifact, oks: seq<bool>, ghost begun: State) returns (outcome: Outcome)
      requires |oks| == STEPS && latch != Some(p) && artifact !in markers
      requires begun == View(map[p := Proc(artifact, AtLatch, false)])
      modifies this
      ensures View(map[]) == Drive(begun, p, oks[3..])
      ensures !outcome.QuiesceRefused? && !outcome.ReceiptRefused? && !outcome.AlreadyExecuted?
      ensures outcome.LatchRefused? <==> !Leased(old(ledger), old(latch), oks)
      ensures outcome.NotUnborn? <==>
        Leased(old(ledger), old(latch), oks) && ClassifyCommit(old(ledger)) != NOT_COMMITTED
      ensures !outcome.LatchRefused? && !outcome.NotUnborn? ==>
        && (outcome.Interrupted? <==> !Carried(oks))
        && (outcome.Born? <==> Carried(oks) && Sound(old(ledger)))
      ensures outcome.Unverified? ==> outcome.class_ == ClassifyCommit(ledger) == UNKNOWN
      ensures outcome.Born? ==>
        ClassifyCommit(ledger) == COMMITTED && births == old(births) + [artifact] && CommittedMarker(markers, artifact)
      ensures outcome.Born? || outcome.Unverified? ==>
        ledger == WithBirth(Migrated(old(ledger)), artifact)
      ensures outcome.Born? ==> outcome.turn == |Migrated(old(ledger)).turns|
      ensures outcome.LatchRefused? || outcome.NotUnborn? ==>
        births == old(births) && markers == old(markers) && SameContent(old(ledger), ledger)
      ensures outcome.NotUnborn? ==> outcome.class_ == ClassifyCommit(old(ledger)) != NOT_COMMITTED
    {
      ghost var s := begun;
      DriveOnce(s, p, oks, 3);
      s := Advance(s, p, oks[3]);
      if latch.Some? || !oks[3] || ledger.Unreadable? {
        assert s.procs == map[];
        return LatchRefused;
      }
      latch := Some(p);
      if ledger.Missing? { ledger := ZeroBytes; }

      outcome := LatchedPart(p, artifact, oks, s);
    }

    /** The last refusal gate, and the claim. */
    method LatchedPart(p: Pid, artifact: Artifact, oks: seq<bool>, ghost begun: State) returns (outcome: Outcome)
      requires |oks| == STEPS && latch == Some(p) && artifact !in markers
      requires begun == View(map[p := Proc(artifact, AtClassify, false)])
      modifies this
      ensures View(map[]) == Drive(begun, p, oks[4..])
      ensures outcome.NotUnborn? || outcome.Interrupted? || outcome.Unverified? || outcome.Born?
      ensures outcome.NotUnborn? <==> ClassifyCommit(old(ledger)) != NOT_COMMITTED
      ensures !outcome.NotUnborn? ==>
        && (outcome.Interrupted? <==> !Carried(oks))
        && (outcome.Born? <==> Carried(oks) && Sound(old(ledger)))
      ensures outcome.Unverified? ==> outcome.class_ == ClassifyCommit(ledger) == UNKNOWN
      ensures outcome.Born? ==>
        ClassifyCommit(ledger) == COMMITTED && births == old(births) + [artifact] && CommittedMarker(markers, artifact)
      ensures outcome.Born? || outcome.Unverified? ==>
        ledger == WithBirth(Migrated(old(ledger)), artifact)
      ensures outcome.Born? ==> outcome.turn == |Migrated(old(ledger)).turns|
      ensures outcome.NotUnborn? ==> births == old(births) && markers == old(markers) && ledger == old(ledger)
      ensures outcome.NotUnborn? ==> outcome.class_ == ClassifyCommit(old(ledger)) != NOT_COMMITTED
    {
      ghost var s := begun;
      DriveOnce(s, p, oks, 4);
      s := Advance(s, p, oks[4]);
      var classification := ClassifyCommit(ledger);
      if classification != NOT_COMMITTED {
        latch := None;
        assert s.procs == map[];
        return NotUnborn(classification);
      }

      DriveOnce(s, p, oks, 5);
      s := Advance(s, p, oks[5]);
      if !oks[5] {
        latch := None;
        assert s.procs == map[];
        return Interrupted;
      }
      markers := markers[artifact := Executing];

      outcome := ClaimedPart(p, artifact, oks, s);
    }

    /** From the claim on: the authorization is spent, whatever happens. */
    method ClaimedPart(p: Pid, artifact: Artifact, oks: seq<bool>, ghost begun: State) returns (outcome: Outcome)
      requires |oks| == STEPS && latch == Some(p) && artifact in markers && ClassifyCommit(ledger) == NOT_COMMITTED
      requires begun == View(map[p := Proc(artifact, AtMigrate, true)])
      modifies this
      ensures View(map[]) == Drive(begun, p, oks[6..])
      ensures outcome.Interrupted? || outcome.Unverified? || outcome.Born?
      ensures outcome.Interrupted? <==> !(oks[6] && oks[8] && oks[9])
      ensures outcome.Born? <==> oks[6] && oks[8] && oks[9] && Sound(old(ledger))
      ensures outcome.Unverified? ==> outcome.class_ == ClassifyCommit(ledger) == UNKNOWN
      ensures outcome.Born? ==>
        ClassifyCommit(ledger) == COMMITTED && births == old(births) + [artifact] && CommittedMarker(markers, artifact)
      ensures outcome.Born? || outcome.Unverified? ==>
        ledger == WithBirth(Migrated(old(ledger)), artifact)
      ensures outcome.Born? ==> outcome.turn == |Migrated(old(ledger)).turns|
    {
      ghost var s := begun;
      DriveOnce(s, p, oks, 6);
      s := Advance(s, p, oks[6]);
      if !oks[6] {
        latch := None;
        assert s.procs == map[];
        return Interrupted;
      }
      WriteMakesCommitted(ledger, artifact);
      ledger := Migrated(ledger);
      outcome := MigratedPart(p, artifact, oks, s);
    }

    /** From the migrated ledger on: the last check and the anchored write. */
    method MigratedPart(p: Pid, artifact: Artifact, oks: seq<bool>, ghost begun: State) returns (outcome: Outcome)
      requires |oks| == STEPS && latch == Some(p) && artifact in markers && AcceptsBirth(ledger)
      requires begun == View(map[p := Proc(artifact, AtBornCheck, true)])
      modifies this
      ensures View(map[]) == Drive(begun, p, oks[7..])
      ensures outcome.Interrupted? || outcome.Unverified? || outcome.Born?
      ensures outcome.Interrupted? <==> !(oks[8] && oks[9])
      ensures outcome.Born? <==> oks[8] && oks[9] && ClassifyCommit(WithBirth(old(ledger), artifact)) == COMMITTED
      ensures outcome.Unverified? ==>
        outcome.class_ == ClassifyCommit(ledger) && ledger == WithBirth(old(ledger), artifact)
      ensures outcome.Born? ==>
        ClassifyCommit(ledger) == COMMITTED && births == old(births) + [artifact] && CommittedMarker(markers, artifact)
      ensures outcome.Born? || outcome.Unverified? ==> ledger == WithBirth(old(ledger), artifact)
      ensures outcome.Born? ==> outcome.turn == |old(ledger).turns|
    {
      ghost var s := begun;
      DriveOnce(s, p, oks, 7);
      s := Advance(s, p, oks[7]);

      DriveOnce(s, p, oks, 8);
      s := Advance(s, p, oks[8]);
      if !oks[8] {
        latch := None;
        assert s.procs == map[];
        return Interrupted;
      }
      var turn := |ledger.turns|;
      ledger := WithBirth(ledger, artifact);
      births := births + [artifact];

      outcome := WrittenPart(p, artifact, turn, oks, s);
    }

    /** From the committed write on: the marker's second state, the close, the fresh classification. */
    method WrittenPart(p: Pid, artifact: Artifact, turn: nat, oks: seq<bool>, ghost begun: State)
      returns (outcome: Outcome)
      requires |oks| == STEPS && latch == Some(p) && artifact in markers
      requires begun == View(map[p := Proc(artifact, AtRewrite, true)])
      modifies this`markers, this`latch
      ensures View(map[]) == Drive(begun, p, oks[9..])
      ensures outcome.Interrupted? || outcome.Unverified? || outcome.Born?
      ensures outcome.Interrupted? <==> !oks[9]
      ensures outcome.Born? <==> oks[9] && ClassifyCommit(ledger) == COMMITTED
      ensures outcome.Unverified? ==> outcome.class_ == ClassifyCommit(ledger)
      ensures outcome.Born? ==> CommittedMarker(markers, artifact) && outcome.turn == turn
    {
      ghost var s := begun;
      DriveOnce(s, p, oks, 9);
      s := Advance(s, p, oks[9]);
      if !oks[9] {
        latch := None;
        assert s.procs == map[];
        return Interrupted;
      }
      markers := markers[artifact := Committed];

      DriveOnce(s, p, oks, 10);
      s := Advance(s, p, oks[10]);
      latch := None;
      DriveOnce(s, p, oks, 11);
      s := Advance(s, p, oks[11]);
      assert s.procs == map[];
      var verdict := ClassifyCommit(ledger);
      if verdict != COMMITTED {
        return Unverified(verdict);
      }
      outcome := Born(turn);
    }
  }

  /** On an intact ledger with every answer favourable, the transaction is born, and the fresh
      classification agrees: migration and write together turn NOT_COMMITTED into COMMITTED. */
  lemma WriteMakesCommitted(l: Ledger, a: Artifact)
    requires ClassifyCommit(l) == NOT_COMMITTED
    ensures AcceptsBirth(Migrated(l))
    ensures ClassifyCommit(WithBirth(Migrated(l), a)) == (if l.Maez? && !l.chained then UNKNOWN else COMMITTED)
    ensures IsBorn(WithBirth(Migrated(l), a)) && !AcceptsBirth(WithBirth(Migrated(l), a))
  {
    var t := Migrated(l).turns + [Turn(true, BirthEvent(a))];
    assert t[|Migrated(l).turns|] == Turn(true, BirthEvent(a));
  }
}

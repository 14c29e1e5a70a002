/** What every run of the capacity ledger keeps, across lost writes and restarts. */
module CapacitySafety {
  import opened Common
  import opened CapacityWindows
  import opened CapacityModel

  // ----- Entries are well formed -----

  ghost predicate AfterOk(e: Entry) {
    match e.after
    case NoAfter => true
    case Derived(v) => e.actual.Some? && v == DerivedAfter(e.before, e.actual.value)
    case Observed(v, _) => 0.0 <= v <= 1.0
  }

  ghost predicate EntryOk(e: Entry) {
    && ProductComplete(e.identity) && !Blank(e.install)
    && 0.0 <= e.before <= 1.0 && 0.0 <= e.reserved <= 1.0
    && EntryLoads(e) && (e.state.Reserved? ==> e.expires.Some?)
    && (e.state.Reconciled? <==> e.actual.Some?) && (e.actual.Some? ==> 0.0 <= e.actual.value <= 1.0)
    && AfterOk(e) && !e.state.Cancelled?
  }

  ghost predicate EntriesOk(m: map<string, Entry>) {
    forall k :: k in m ==> EntryOk(m[k])
  }

  /** No two entries share a hold, and all hold numbers have been given out. */
  ghost predicate NumbersOk(m: map<string, Entry>, issued: nat) {
    HoldsDistinct(m) && forall k :: k in m ==> Number(m[k]) <= issued
  }

  ghost predicate LedgerOk(s: Ledger) {
    EntriesOk(s.mem) && EntriesOk(s.disk) && NumbersOk(s.mem, s.issued) && NumbersOk(s.disk, s.issued)
  }

  lemma TokenOfBlankIff(kind: string)
    ensures NormalizeToken(kind) == "" <==> Blank(kind)
  {}

  lemma StoredKindNotBlank(found: string, wanted: string)
    requires KindEqual(found, wanted) && !Blank(wanted)
    ensures !Blank(MapWindowKind(found))
  {
    KindEqualIff(found, wanted);
    TokenOfBlankIff(wanted);
    TokenOfMapped(found);
    TokenOfBlankIff(MapWindowKind(found));
  }

  lemma KindEqualTrim(a: string, b: string)
    ensures KindEqual(a, Trim(b)) <==> KindEqual(a, b)
  {
    TrimTwice(b);
  }

  /** The chosen window belongs to the requested account and is of the requested kind. */
  lemma ChosenMatches(r: Request)
    requires !RequestInvalid(r) && Chosen(r).Some?
    ensures Chosen(r).value.account == r.account
    ensures KindEqual(Chosen(r).value.window.kind, r.kind)
  {
    var want, rows := WantedBy(r), r.snapshot.value;
    PickIsBest(want, rows);
    var i, j :| Offered(want, rows, i, j, Chosen(r).value);
    KindEqualTrim(rows[i].windows[j].kind, r.kind);
  }

  lemma TrimBlank(s: string)
    ensures Blank(Trim(s)) <==> Blank(s)
  {
    TrimTwice(s);
  }

  lemma NewIdentityComplete(r: Request, account: Account, kind: string)
    requires !RequestInvalid(r)
    ensures ProductComplete(IdentityOf(r, account, kind)) && !Blank(Trim(r.install))
  {
    TrimBlank(r.plan);
    TrimBlank(r.graph);
    TrimBlank(r.taskClass);
    TrimBlank(r.contract);
    TrimBlank(r.install);
  }

  lemma NewEntryOk(s: Ledger, r: Request, verdict: Verdict, expires: Time)
    requires !RequestInvalid(r)
    ensures EntryOk(NewEntry(s, r, verdict, expires))
  {
    if Chosen(r).None? {
      NewIdentityComplete(r, if r.snapshot.None? then Missing else r.account, "");
    } else {
      var c := Chosen(r).value;
      NewIdentityComplete(r, c.account, MapWindowKind(c.window.kind));
      ChosenMatches(r);
      StoredKindNotBlank(c.window.kind, r.kind);
    }
  }

  // ----- What a step does to one entry -----

  /** What an operation on an attempt makes of the attempt's entry. */
  function Advance(e: Entry, op: Op): Entry {
    match op
    case Reconcile(_, fraction, source, _, _) => ReconcileEntry(e, fraction, source)
    case Release(_, _) => ReleaseEntry(e)
    case Observe(_, o, _) => ObserveEntry(e, o)
    case _ => e
  }

  predicate Concerns(op: Op, k: string) {
    (op.Reconcile? || op.Release? || op.Observe?) && Key(op.attempt) == k
  }

  lemma StepOnEntry(s: Ledger, op: Op, k: string)
    requires !op.Reopen? && k in s.mem
    ensures k in Step(s, op).mem && Step(s, op).mem[k] == if Concerns(op, k) then Advance(s.mem[k], op) else s.mem[k]
  {}

  /** `f` is a later form of the entry `e`. */
  ghost predicate Later(e: Entry, f: Entry) {
    && f.identity == e.identity && f.install == e.install && f.before == e.before && f.reserved == e.reserved
    && f.hold == e.hold && f.reset == e.reset && f.expires == e.expires
    && (e.state.Reconciled? ==> f.state == e.state && f.actual == e.actual && f.source == e.source)
    && (e.after.Observed? ==> f.after.Observed?)
    && (f.state.Reserved? ==> e.state.Reserved?)
  }

  lemma AdvanceIsLater(e: Entry, op: Op)
    requires !Blank(e.install)
    ensures Later(e, Advance(e, op))
  {}

  lemma AdvanceKeepsEntry(e: Entry, op: Op)
    requires EntryOk(e)
    ensures EntryOk(Advance(e, op))
  {}

  lemma ReloadIsLater(e: Entry, now: Time)
    ensures Later(e, Reload(e, now))
    ensures EntryOk(e) ==> EntryOk(Reload(e, now))
  {}

  // ----- Every step keeps the ledger -----

  lemma PutKeepsNumbers(m: map<string, Entry>, k: string, e: Entry, issued: nat, later: nat)
    requires NumbersOk(m, issued) && issued <= later && Number(e) <= later
    requires e.hold.Some? ==> e.hold.value > issued || (k in m && m[k].hold == e.hold)
    ensures NumbersOk(m[k := e], later)
  {}

  lemma PutKeepsEntries(m: map<string, Entry>, k: string, e: Entry)
    requires EntriesOk(m) && EntryOk(e)
    ensures EntriesOk(m[k := e])
  {}

  lemma WrittenKeepsLedger(s: Ledger, saved: bool)
    requires LedgerOk(s)
    ensures LedgerOk(Written(s, saved))
  {}

  lemma NewEntryNumber(s: Ledger, r: Request, verdict: Verdict, expires: Time)
    ensures var e, later := NewEntry(s, r, verdict, expires), IssuedBy(s, r, verdict);
      s.issued <= later && Number(e) <= later && (e.hold.Some? ==> e.hold.value > s.issued)
  {}

  lemma ReserveKeepsLedger(s: Ledger, r: Request, verdict: Verdict, expires: Time, saved: bool)
    requires LedgerOk(s)
    ensures LedgerOk(ReserveStep(s, r, verdict, expires, saved))
  {
    if Opens(s, r) {
      var k, e, later := Key(r.attempt), NewEntry(s, r, verdict, expires), IssuedBy(s, r, verdict);
      var t := Ledger(s.mem[k := e], s.disk, later);
      NewEntryNumber(s, r, verdict, expires);
      assert EntriesOk(t.mem) by {
        NewEntryOk(s, r, verdict, expires);
        PutKeepsEntries(s.mem, k, e);
      }
      assert NumbersOk(t.mem, later) by {
        PutKeepsNumbers(s.mem, k, e, s.issued, later);
      }
      WrittenKeepsLedger(t, saved);
    }
  }

  lemma AdvanceKeepsLedger(s: Ledger, k: string, op: Op, issued: nat, saved: bool)
    requires LedgerOk(s) && k in s.mem && s.issued <= issued
    ensures LedgerOk(Written(Ledger(s.mem[k := Advance(s.mem[k], op)], s.disk, issued), saved))
  {
    var e := s.mem[k];
    var t := Ledger(s.mem[k := Advance(e, op)], s.disk, issued);
    assert EntriesOk(t.mem) by {
      AdvanceKeepsEntry(e, op);
      PutKeepsEntries(s.mem, k, Advance(e, op));
    }
    assert NumbersOk(t.mem, issued) by {
      AdvanceIsLater(e, op);
      PutKeepsNumbers(s.mem, k, Advance(e, op), s.issued, issued);
    }
    WrittenKeepsLedger(t, saved);
  }

  lemma ReloadKeepsEntries(m: map<string, Entry>, now: Time)
    requires EntriesOk(m)
    ensures EntriesOk(Reloaded(m, now))
  {}

  lemma ReloadKeepsNumbers(m: map<string, Entry>, now: Time)
    requires HoldsDistinct(m)
    ensures NumbersOk(Reloaded(m, now), Highest(m))
  {}

  lemma ReopenKeepsLedger(s: Ledger, now: Time, saved: bool)
    requires LedgerOk(s)
    ensures LedgerOk(ReopenStep(s, now, saved))
  {
    ReloadKeepsEntries(s.disk, now);
    ReloadKeepsNumbers(s.disk, now);
  }

  lemma ReconcileKeepsLedger(s: Ledger, op: Op)
    requires LedgerOk(s) && op.Reconcile?
    ensures LedgerOk(Step(s, op))
  {
    if Key(op.attempt) in s.mem && !s.mem[Key(op.attempt)].state.Reconciled? {
      AdvanceKeepsLedger(s, Key(op.attempt), op, Step(s, op).issued, op.saved);
    }
  }

  lemma StepKeepsLedger(s: Ledger, op: Op)
    requires LedgerOk(s)
    ensures LedgerOk(Step(s, op))
  {
    match op
    case Reserve(r, verdict, expires, saved) =>
      ReserveKeepsLedger(s, r, verdict, expires, saved);
    case Reopen(now, saved) =>
      ReopenKeepsLedger(s, now, saved);
    case Reconcile(a, fraction, source, counted, saved) =>
      ReconcileKeepsLedger(s, op);
    case Release(a, saved) =>
      if Key(a) in s.mem {
        AdvanceKeepsLedger(s, Key(a), op, s.issued, saved);
      }
    case Observe(a, o, saved) =>
      if Key(a) in s.mem {
        AdvanceKeepsLedger(s, Key(a), op, s.issued, saved && Accepts(s, a, o));
      }
  }

  lemma {:induction false} RunKeepsLedger(s: Ledger, ops: seq<Op>)
    requires LedgerOk(s)
    ensures LedgerOk(Run(s, ops))
    decreases |ops|
  {
    if ops != [] {
      RunKeepsLedger(s, ops[..|ops| - 1]);
      StepKeepsLedger(Run(s, ops[..|ops| - 1]), ops[|ops| - 1]);
    }
  }

  /** Whatever happened, writes lost or not: the ledger can read the file it left, and at no
      moment do two of its entries share a soft reservation. */
  lemma RunStaysReadable(ops: seq<Op>)
    ensures Loads(Run(EMPTY_LEDGER, ops).disk)
    ensures HoldsDistinct(Run(EMPTY_LEDGER, ops).mem)
  {
    RunKeepsLedger(EMPTY_LEDGER, ops);
  }

  // ----- Entries only advance -----

  /** A restart loses nothing if the file holds what memory holds. */
  ghost predicate Lossless(s: Ledger, op: Op) {
    op.Reopen? ==> s.disk == s.mem
  }

  ghost predicate LosslessRun(s: Ledger, ops: seq<Op>)
    decreases |ops|
  {
    ops == [] || (LosslessRun(s, ops[..|ops| - 1]) && Lossless(Run(s, ops[..|ops| - 1]), ops[|ops| - 1]))
  }

  lemma StepAdvances(s: Ledger, op: Op, k: string)
    requires EntriesOk(s.mem) && Lossless(s, op) && k in s.mem
    ensures k in Step(s, op).mem && Later(s.mem[k], Step(s, op).mem[k])
  {
    if op.Reopen? {
      ReloadIsLater(s.mem[k], op.now);
    } else {
      StepOnEntry(s, op, k);
      AdvanceIsLater(s.mem[k], op);
    }
  }

  /** Over every run without a lossy restart an entry keeps its identity, capacity before and
      hold; a reconciled one its actual use, source and state; an observed remainder is never
      replaced by a derived one; a hold given up is never taken up again. */
  lemma {:induction false} RunAdvances(s: Ledger, ops: seq<Op>, k: string)
    requires LedgerOk(s) && LosslessRun(s, ops) && k in s.mem
    ensures k in Run(s, ops).mem && Later(s.mem[k], Run(s, ops).mem[k])
    decreases |ops|
  {
    if ops != [] {
      var init := ops[..|ops| - 1];
      RunAdvances(s, init, k);
      RunKeepsLedger(s, init);
      StepAdvances(Run(s, init), ops[|ops| - 1], k);
    }
  }

  ghost predicate AllSaved(ops: seq<Op>) {
    forall i :: 0 <= i < |ops| ==> ops[i].saved
  }

  lemma RejectedObservation(s: Ledger, a: Attempt, o: Observation, saved: bool)
    requires EntriesOk(s.mem) && !Accepts(s, a, o)
    ensures ObserveStep(s, a, o, saved) == s
  {}

  lemma SavedStepKeepsFile(s: Ledger, op: Op)
    requires EntriesOk(s.mem) && s.disk == s.mem && op.saved
    ensures Step(s, op).disk == Step(s, op).mem
  {
    match op
    case Observe(a, o, saved) =>
      if !Accepts(s, a, o) {
        RejectedObservation(s, a, o, saved);
      }
    case _ =>
  }

  /** If every write succeeds no restart loses anything. */
  lemma {:induction false} SavedRunIsLossless(s: Ledger, ops: seq<Op>)
    requires LedgerOk(s) && s.disk == s.mem && AllSaved(ops)
    ensures LosslessRun(s, ops) && Run(s, ops).disk == Run(s, ops).mem
    decreases |ops|
  {
    if ops != [] {
      var init := ops[..|ops| - 1];
      SavedRunIsLossless(s, init);
      RunKeepsLedger(s, init);
      SavedStepKeepsFile(Run(s, init), ops[|ops| - 1]);
    }
  }

  /** Within one process, writes may fail as they like. */
  lemma {:induction false} NoRestartIsLossless(s: Ledger, ops: seq<Op>)
    requires forall i :: 0 <= i < |ops| ==> !ops[i].Reopen?
    ensures LosslessRun(s, ops)
    decreases |ops|
  {
    if ops != [] {
      NoRestartIsLossless(s, ops[..|ops| - 1]);
    }
  }

  // ----- One hold per attempt -----

  /** The step obtains a soft reservation for `k`. */
  predicate Obtains(s: Ledger, op: Op, k: string) {
    op.Reserve? && Key(op.request.attempt) == k && Opens(s, op.request)
    && HoldFor(s, op.request, op.verdict).Some? && HoldFor(s, op.request, op.verdict).value.Held?
  }

  ghost function HoldsObtained(s: Ledger, ops: seq<Op>, k: string): nat
    decreases |ops|
  {
    if ops == [] then 0
    else
      var init := ops[..|ops| - 1];
      HoldsObtained(s, init, k) + if Obtains(Run(s, init), ops[|ops| - 1], k) then 1 else 0
  }

  lemma StepKeepsKeys(s: Ledger, op: Op, k: string)
    requires Lossless(s, op) && k in s.mem
    ensures k in Step(s, op).mem
  {}

  lemma {:induction false} OneHoldPerAttempt(s: Ledger, ops: seq<Op>, k: string)
    requires LosslessRun(s, ops)
    ensures HoldsObtained(s, ops, k) <= if k in s.mem then 0 else 1
    ensures k in s.mem || HoldsObtained(s, ops, k) > 0 ==> k in Run(s, ops).mem
    decreases |ops|
  {
    if ops != [] {
      var init := ops[..|ops| - 1];
      OneHoldPerAttempt(s, init, k);
      if k in Run(s, init).mem {
        StepKeepsKeys(Run(s, init), ops[|ops| - 1], k);
      }
    }
  }

  /** The request gets a hold whenever the store has room and the attempt is not known. */
  predicate Grantable(r: Request) {
    !RequestInvalid(r) && Chosen(r).Some? && !StoreRejects(r)
  }

  /** After a restart an attempt obtains a hold, a second one if it had one, exactly if its
      entry never reached the file. */
  lemma HoldAfterRestartIff(s: Ledger, now: Time, r: Request, expires: Time, saved: bool)
    requires LedgerOk(s) && Grantable(r)
    ensures Obtains(Step(s, Reopen(now, true)), Reserve(r, Grant, expires, saved), Key(r.attempt))
            <==> Key(r.attempt) !in s.disk
  {}

  // ----- Numbers -----

  /** The step draws the number `n`, for a hold, a refusal or an attribution. */
  ghost predicate Draws(s: Ledger, op: Op, n: nat) {
    !op.Reopen? && s.issued < n == Step(s, op).issued
  }

  /** A restart that finds neither `n` nor any later number in the file. */
  ghost predicate Drops(s: Ledger, op: Op, n: nat) {
    op.Reopen? && Reopens(s, op.now, op.saved) && Highest(s.disk) < n
  }

  ghost predicate DrawnIn(s: Ledger, ops: seq<Op>, n: nat)
    decreases |ops|
  {
    ops != [] && (DrawnIn(s, ops[..|ops| - 1], n) || Draws(Run(s, ops[..|ops| - 1]), ops[|ops| - 1], n))
  }

  ghost predicate DroppedIn(s: Ledger, ops: seq<Op>, n: nat)
    decreases |ops|
  {
    ops != [] && (DroppedIn(s, ops[..|ops| - 1], n) || Drops(Run(s, ops[..|ops| - 1]), ops[|ops| - 1], n))
  }

  lemma StepOnIssued(s: Ledger, op: Op)
    ensures !op.Reopen? ==> s.issued <= Step(s, op).issued <= s.issued + 1
    ensures op.Reopen? ==> Step(s, op).issued == if Reopens(s, op.now, op.saved) then Highest(s.disk) else s.issued
  {}

  lemma HighestIssued(m: map<string, Entry>, issued: nat)
    requires NumbersOk(m, issued)
    ensures Highest(m) <= issued
  {}

  /** A number given out before the run is drawn again in the run only after a restart that
      found neither it nor a later one in the file; and after such a restart it is drawn again
      as soon as the counter is back at it. */
  lemma {:induction false} DrawnAgainIff(s: Ledger, ops: seq<Op>, n: nat)
    requires LedgerOk(s) && n <= s.issued
    ensures DrawnIn(s, ops, n) ==> DroppedIn(s, ops, n)
    ensures n <= Run(s, ops).issued ==> (DrawnIn(s, ops, n) <==> DroppedIn(s, ops, n))
    ensures Run(s, ops).issued < n ==> DroppedIn(s, ops, n)
    decreases |ops|
  {
    if ops != [] {
      var init := ops[..|ops| - 1];
      DrawnAgainIff(s, init, n);
      assert NumbersOk(Run(s, init).disk, Run(s, init).issued) by {
        RunKeepsLedger(s, init);
      }
      HighestIssued(Run(s, init).disk, Run(s, init).issued);
      StepOnIssued(Run(s, init), ops[|ops| - 1]);
    }
  }

  // ----- A rise needs evidence -----

  /** Some accepted observation in the run with evidence of a reset reported this value. */
  ghost predicate Evidenced(ops: seq<Op>, k: string, value: real) {
    exists i :: 0 <= i < |ops| && ops[i].Observe? && Key(ops[i].attempt) == k
      && Clamp01(ops[i].observation.fraction) == value && HasResetEvidence(ops[i].observation)
  }

  ghost predicate RiseExplained(ops: seq<Op>, k: string, e: Entry) {
    e.after.Observed? && e.after.value > e.before + RISE_TOLERANCE ==> Evidenced(ops, k, e.after.value)
  }

  ghost predicate AllExplained(ops: seq<Op>, m: map<string, Entry>) {
    forall k :: k in m ==> RiseExplained(ops, k, m[k])
  }

  lemma ExplainedLonger(ops: seq<Op>, op: Op, m: map<string, Entry>)
    requires AllExplained(ops, m)
    ensures AllExplained(ops + [op], m)
  {
    forall k | k in m
      ensures RiseExplained(ops + [op], k, m[k])
    {
      assert RiseExplained(ops, k, m[k]);
      if m[k].after.Observed? && Evidenced(ops, k, m[k].after.value) {
        var i :| 0 <= i < |ops| && ops[i].Observe? && Key(ops[i].attempt) == k
          && Clamp01(ops[i].observation.fraction) == m[k].after.value && HasResetEvidence(ops[i].observation);
        assert (ops + [op])[i] == ops[i];
      }
    }
  }

  lemma StepKeepsExplained(s: Ledger, ops: seq<Op>, op: Op)
    requires AllExplained(ops, s.mem) && AllExplained(ops, s.disk)
    ensures AllExplained(ops + [op], Step(s, op).mem) && AllExplained(ops + [op], Step(s, op).disk)
  {
    ExplainedLonger(ops, op, s.mem);
    ExplainedLonger(ops, op, s.disk);
    if op.Observe? {
      assert (ops + [op])[|ops|] == op;
    }
  }

  /** In memory and in the file, over any run: what was observed to remain is at most what
      remained before, up to the tolerance, unless evidence of a reset came with it. */
  lemma {:induction false} RiseNeedsEvidence(ops: seq<Op>)
    ensures AllExplained(ops, Run(EMPTY_LEDGER, ops).mem) && AllExplained(ops, Run(EMPTY_LEDGER, ops).disk)
    decreases |ops|
  {
    if ops != [] {
      var init := ops[..|ops| - 1];
      RiseNeedsEvidence(init);
      StepKeepsExplained(Run(EMPTY_LEDGER, init), init, ops[|ops| - 1]);
      assert init + [ops[|ops| - 1]] == ops;
    }
  }

  // ----- Repeating a reservation -----

  lemma NewEntryMatchesIff(s: Ledger, r: Request, verdict: Verdict, expires: Time)
    requires !RequestInvalid(r) && Chosen(r).Some?
    ensures IdentityMatches(NewEntry(s, r, verdict, expires), r) <==> Lower(Trim(r.kind)) != "rate-limit"
  {
    ChosenMatches(r);
    StoredKindEqualIff(Chosen(r).value.window.kind, r.kind);
    TrimTwice(r.plan);
    TrimTwice(r.graph);
    TrimTwice(r.taskClass);
    TrimTwice(r.contract);
    TrimTwice(r.install);
  }

  lemma LaterMatchesIff(e: Entry, f: Entry, r: Request)
    requires Later(e, f)
    ensures IdentityMatches(f, r) <==> IdentityMatches(e, r)
  {}

  lemma KnownAnswer(s: Ledger, again: Op)
    requires again.Reserve? && EntriesOk(s.mem) && !RequestInvalid(again.request) && Key(again.request.attempt) in s.mem
    ensures Step(s, again) == s
    ensures var e := s.mem[Key(again.request.attempt)];
            ReserveAnswer(s, again.request, again.verdict, again.expires, again.saved)
            == if !e.state.Reserved? then Failed(Invalid)
               else if IdentityMatches(e, again.request) then Answer(Some(e), None) else Failed(Conflict)
  {}

  lemma ObtainedEntry(s: Ledger, first: Op)
    requires first.Reserve? && Obtains(s, first, Key(first.request.attempt))
    ensures !RequestInvalid(first.request) && Key(first.request.attempt) in Step(s, first).mem
    ensures IdentityMatches(Step(s, first).mem[Key(first.request.attempt)], first.request)
            <==> Lower(Trim(first.request.kind)) != "rate-limit"
  {
    NewEntryMatchesIff(s, first.request, first.verdict, first.expires);
  }

  /** Repeating a reservation that obtained a hold, at any later time while it is still held:
      nothing changes, and the entry is handed out again unless the window kind is spelled
      with the one alias that the comparison does not know. */
  lemma RepeatedReserve(s: Ledger, first: Op, ops: seq<Op>, again: Op)
    requires LedgerOk(s) && first.Reserve? && again.Reserve? && again.request == first.request
    ensures Obtains(s, first, Key(first.request.attempt)) && LosslessRun(Step(s, first), ops) ==>
              var end, k := Run(Step(s, first), ops), Key(first.request.attempt);
              && Step(end, again) == end && k in end.mem
              && ReserveAnswer(end, again.request, again.verdict, again.expires, again.saved)
                 == if !end.mem[k].state.Reserved? then Failed(Invalid)
                    else if Lower(Trim(first.request.kind)) != "rate-limit" then Answer(Some(end.mem[k]), None)
                    else Failed(Conflict)
  {
    if Obtains(s, first, Key(first.request.attempt)) && LosslessRun(Step(s, first), ops) {
      var t, k := Step(s, first), Key(first.request.attempt);
      var end := Run(t, ops);
      ObtainedEntry(s, first);
      assert LedgerOk(t) by {
        StepKeepsLedger(s, first);
      }
      RunAdvances(t, ops, k);
      LaterMatchesIff(t.mem[k], end.mem[k], first.request);
      assert EntriesOk(end.mem) by {
        RunKeepsLedger(t, ops);
      }
      KnownAnswer(end, again);
    }
  }
}

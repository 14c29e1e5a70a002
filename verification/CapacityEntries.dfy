/** What each operation of the capacity ledger writes, in terms of what it was given. */
module CapacityEntries {
  import opened Common
  import opened CapacityWindows
  import opened CapacityModel
  import opened CapacitySafety

  // ----- Windows -----

  predicate WeekName(k: string) {
    k in {"weekly", "fixed-week", "fixed_week"}
  }

  predicate FiveHourName(k: string) {
    k in {"five_hour", "fixed_hour", "fixed-hour", "5h", "fixedhour"}
  }

  function Name(kind: string): string {
    Lower(Trim(kind))
  }

  lemma TokenMeans(kind: string)
    ensures NormalizeToken(kind) == if WeekName(Name(kind)) then "weekly" else if FiveHourName(Name(kind)) then "five_hour" else Name(kind)
  {}

  /** Kinds are equal up to case, surrounding white space and the names of the week and of the
      five hours. */
  lemma KindEqualMeans(a: string, b: string)
    ensures KindEqual(a, b) <==>
      Name(a) == Name(b) || (WeekName(Name(a)) && WeekName(Name(b))) || (FiveHourName(Name(a)) && FiveHourName(Name(b)))
  {
    KindEqualIff(a, b);
    TokenMeans(a);
    TokenMeans(b);
    assert "weekly"[0] != "five_hour"[0];
  }

  lemma StoredKindMeans(kind: string)
    ensures MapWindowKind(kind) == if WeekName(Name(kind)) then "weekly" else if FiveHourName(Name(kind)) then "five_hour"
                                   else if Name(kind) == "rate-limit" then "rate_limit" else Name(kind)
  {}

  /** What remains: everything of an unlimited window; of a limit the part that is left, within
      bounds; of a bare percentage its value, read as a fraction up to one and as percent above. */
  lemma RemainingMeans(w: Window)
    ensures var r := RemainingFraction(w);
      var measured := w.remaining.Finite? || w.remaining.Zero?;
      var limited := w.limit.Finite? && w.limit.value > 0.0;
      && (w.remaining.Unlimited? ==> r == Some(1.0))
      && (w.remaining.Unmeasured? ==> r == None)
      && (measured && limited && 0.0 <= w.remaining.value <= w.limit.value ==> r.Some? && r.value * w.limit.value == w.remaining.value)
      && (measured && limited && w.remaining.value > w.limit.value ==> r == Some(1.0))
      && (measured && limited && w.remaining.value < 0.0 ==> r == Some(0.0))
      && (measured && !limited && !w.percentage ==> r == None)
      && (measured && !limited && w.percentage && w.remaining.value < 0.0 ==> r == None)
      && (measured && !limited && w.percentage && 0.0 <= w.remaining.value <= 1.0 ==> r == Some(w.remaining.value))
      && (measured && !limited && w.percentage && 1.0 < w.remaining.value <= 100.0 ==> r.Some? && r.value * 100.0 == w.remaining.value)
      && (measured && !limited && w.percentage && w.remaining.value > 100.0 ==> r == Some(1.0))
  {
    if w.limit.Finite? && w.limit.value > 0.0 && (w.remaining.Finite? || w.remaining.Zero?) {
      Part(w.remaining.value, w.limit.value);
    }
  }

  lemma Part(x: real, y: real)
    requires y > 0.0
    ensures x / y * y == x && (x < 0.0 ==> x / y < 0.0) && (x > y ==> x / y > 1.0) && (0.0 <= x <= y ==> 0.0 <= x / y <= 1.0)
  {
    var q := x / y;
    assert q * y == x;
    if q < 0.0 {
      assert q * y < 0.0;
    } else {
      assert q * y >= 0.0;
    }
    if q > 1.0 {
      assert (q - 1.0) * y > 0.0;
    } else {
      assert (1.0 - q) * y >= 0.0;
    }
  }

  /** The window may be chosen for what is wanted. */
  predicate Matching(want: Wanted, row: Row, w: Window) {
    && Trim(row.provider) == Trim(want.provider) && (want.account.Missing? || row.account == want.account)
    && (Blank(want.install) || Trim(row.install) == Trim(want.install))
    && w.freshness == Fresh && w.confidence != Unknown && (Blank(want.kind) || KindEqual(w.kind, want.kind))
    && RemainingFraction(w).Some?
  }

  lemma EligibleIff(want: Wanted, rows: seq<Row>, i: int, j: int)
    ensures Eligible(want, rows, i, j) <==>
      0 <= i < |rows| && 0 <= j < |rows[i].windows| && Matching(want, rows[i], rows[i].windows[j])
  {
    if 0 <= i < |rows| && 0 <= j < |rows[i].windows| {
      KindEqualTrim(rows[i].windows[j].kind, want.kind);
    }
  }

  /** Nothing matches that has more left, or as much and resets sooner. */
  predicate AsGood(best: Window, w: Window)
    requires RemainingFraction(best).Some? && RemainingFraction(w).Some?
  {
    var f, g := RemainingFraction(best).value, RemainingFraction(w).value;
    f > g || (f == g && (w.reset.None? || (best.reset.Some? && best.reset.value <= w.reset.value)))
  }

  /** The choice in plain terms: a matching window with the account of its row, that has the most
      left of all that match and among those the soonest reset; none exactly if nothing matches. */
  lemma PickMeans(want: Wanted, rows: seq<Row>)
    ensures var best := Pick(want, rows);
      && (best.Some? ==> exists i, j :: 0 <= i < |rows| && 0 <= j < |rows[i].windows| && Matching(want, rows[i], rows[i].windows[j])
                                        && best.value == Choice(rows[i].windows[j], rows[i].account))
      && (forall i, j :: 0 <= i < |rows| && 0 <= j < |rows[i].windows| && Matching(want, rows[i], rows[i].windows[j]) ==>
            best.Some? && AsGood(best.value.window, rows[i].windows[j]))
  {
    PickIsBest(want, rows);
    var best := Pick(want, rows);
    if best.Some? {
      var i, j :| Offered(want, rows, i, j, best.value);
      EligibleIff(want, rows, i, j);
    }
    forall i, j | 0 <= i < |rows| && 0 <= j < |rows[i].windows| && Matching(want, rows[i], rows[i].windows[j])
      ensures best.Some? && AsGood(best.value.window, rows[i].windows[j])
    {
      EligibleIff(want, rows, i, j);
      assert Offered(want, rows, i, j, Choice(rows[i].windows[j], rows[i].account));
    }
  }

  // ----- Reserve -----

  /** A request that is taken up names plan, graph, class, contract, install, kind and a full account. */
  lemma RequestInvalidIff(r: Request)
    ensures RequestInvalid(r) <==>
      Blank(r.plan) || Blank(r.graph) || Blank(r.taskClass) || Blank(r.contract) || !r.account.Full? || Blank(r.install) || Blank(r.kind)
  {
    StoredKindMeans(r.kind);
    assert |Lower(Trim(r.kind))| == |Trim(r.kind)|;
  }

  /** A new attempt leaves an entry with the request's identity; with a window, its kind, account,
      remainder and reset; held for the demand, 5% if none is given, if the store grants it, and
      refused with nothing reserved otherwise. */
  lemma ReserveRecords(s: Ledger, r: Request, verdict: Verdict, expires: Time, saved: bool)
    requires !RequestInvalid(r) && Key(r.attempt) !in s.mem
    ensures var t := ReserveStep(s, r, verdict, expires, saved);
      var k := Key(r.attempt);
      && t.mem.Keys == s.mem.Keys + {k} && (forall i :: i in s.mem ==> t.mem[i] == s.mem[i])
      && t.disk == (if saved then t.mem else s.disk)
      && var e := t.mem[k];
         && e.identity.plan == Trim(r.plan) && e.identity.graph == Trim(r.graph) && e.identity.taskClass == Trim(r.taskClass)
         && e.identity.contract == Trim(r.contract) && e.identity.provider == r.provider && e.identity.model == r.model
         && e.identity.depth == r.depth && e.install == Trim(r.install)
         && e.actual.None? && e.source == "" && e.after == NoAfter && (e.state == Reserved || e.state == Refused)
  {}

  predicate Held(r: Request, verdict: Verdict) {
    !RequestInvalid(r) && Chosen(r).Some? && verdict == Grant
    && !Blank(r.attempt.project) && !Blank(r.attempt.attempt) && !Blank(r.provider) && !Blank(r.model)
  }

  lemma HeldRecords(s: Ledger, r: Request, verdict: Verdict, expires: Time, saved: bool)
    requires !RequestInvalid(r) && Key(r.attempt) !in s.mem
    ensures var e, c := ReserveStep(s, r, verdict, expires, saved).mem[Key(r.attempt)], Chosen(r);
      && (e.state == Reserved <==> Held(r, verdict))
      && (c.Some? ==> e.identity.account == c.value.account && e.identity.kind == MapWindowKind(c.value.window.kind)
                      && Some(e.before) == RemainingFraction(c.value.window) && e.reset == c.value.window.reset)
      && (e.state == Reserved ==> e.hold == Some(s.issued + 1) && e.expires == Some(expires)
                                  && e.reserved == (if r.demand <= 0.0 then 0.05 else if r.demand > 1.0 then 1.0 else r.demand))
      && (e.state == Refused ==> e.reserved == 0.0 && e.expires.None?)
      && (c.None? ==> e.hold.None? && e.identity.account == (if r.snapshot.None? then Missing else r.account)
                      && e.identity.kind == "" && e.before == 0.0 && e.reset.None?)
  {}

  /** Which number is drawn: the next one for a hold and for a refusal for want of headroom, none
      if the store did not get that far. */
  lemma NumberDrawn(s: Ledger, r: Request, verdict: Verdict, expires: Time, saved: bool)
    requires !RequestInvalid(r) && Key(r.attempt) !in s.mem
    ensures var t := ReserveStep(s, r, verdict, expires, saved);
      var draws := Chosen(r).Some? && verdict != Contended && !Blank(r.attempt.project) && !Blank(r.attempt.attempt)
                   && !Blank(r.provider) && !Blank(r.model);
      && t.mem[Key(r.attempt)].hold == (if draws then Some(s.issued + 1) else None)
      && t.issued == (if draws then s.issued + 1 else s.issued)
  {}

  /** What the caller is told of a new attempt: the entry, and why it is not held or not saved. */
  lemma ReserveTold(s: Ledger, r: Request, verdict: Verdict, expires: Time, saved: bool)
    requires !RequestInvalid(r) && Key(r.attempt) !in s.mem
    ensures var t, out := ReserveStep(s, r, verdict, expires, saved), ReserveAnswer(s, r, verdict, expires, saved);
      && out.entry == Some(t.mem[Key(r.attempt)])
      && (out.error == None <==> Held(r, verdict) && saved)
      && (out.error == Some(NoWindow) <==> Chosen(r).None?)
      && (out.error == Some(NotSaved) <==> Held(r, verdict) && !saved)
  {
    HeldRecords(s, r, verdict, expires, saved);
  }

  /** What the caller is told of the other operations: the entry as it now is, and whether it was
      saved if it had to be. */
  lemma OthersTold(s: Ledger, a: Attempt, fraction: real, source: string, counted: bool, o: Observation, saved: bool)
    requires Key(a) in s.mem
    ensures s.mem[Key(a)].state != Reconciled ==>
      ReconcileAnswer(s, a, fraction, source, saved)
      == Answer(Some(ReconcileStep(s, a, fraction, source, counted, saved).mem[Key(a)]), if saved then None else Some(NotSaved))
    ensures ReleaseAnswer(s, a, saved)
         == Answer(Some(ReleaseStep(s, a, saved).mem[Key(a)]),
                   if saved || s.mem[Key(a)].state in {Released, Cancelled, Reconciled} then None else Some(NotSaved))
    ensures Accepts(s, a, o) ==>
      ObserveAnswer(s, a, o, saved) == Answer(Some(ObserveStep(s, a, o, saved).mem[Key(a)]), if saved then None else Some(NotSaved))
    ensures !Accepts(s, a, o) ==> ObserveAnswer(s, a, o, saved) == Failed(Invalid)
  {}

  lemma UnknownTold(s: Ledger, a: Attempt, fraction: real, source: string, counted: bool, o: Observation, saved: bool)
    requires Key(a) !in s.mem
    ensures ReconcileAnswer(s, a, fraction, source, saved) == ReleaseAnswer(s, a, saved) == ObserveAnswer(s, a, o, saved) == Failed(Invalid)
    ensures ReconcileStep(s, a, fraction, source, counted, saved) == ReleaseStep(s, a, saved) == ObserveStep(s, a, o, saved) == s
  {}

  // ----- Keys -----

  lemma BarSplits(a: string, b: string, c: string, d: string)
    requires '|' !in a && '|' !in c && a + ['|'] + b == c + ['|'] + d
    ensures a == c && b == d
  {
    var x := a + ['|'] + b;
    assert forall i :: 0 <= i < |a| ==> x[i] == a[i] && x[i] != '|';
    assert forall i :: 0 <= i < |c| ==> x[i] == c[i] && x[i] != '|';
    assert x[|a|] == '|' && x[|c|] == '|';
    assert |a| == |c|;
    assert a == x[..|a|] && c == x[..|c|];
    assert b == x[|a| + 1..] && d == x[|c| + 1..];
  }

  /** Attempts whose names do not contain the separator share an entry exactly if they are the
      same up to surrounding white space. */
  lemma SameKeyIff(a: Attempt, b: Attempt)
    requires '|' !in Trim(a.project) && '|' !in Trim(a.run) && '|' !in Trim(b.project) && '|' !in Trim(b.run)
    ensures Key(a) == Key(b) <==>
      Trim(a.project) == Trim(b.project) && Trim(a.run) == Trim(b.run) && Trim(a.attempt) == Trim(b.attempt)
  {
    if Key(a) == Key(b) {
      var p, q := Trim(a.run) + ['|'] + Trim(a.attempt), Trim(b.run) + ['|'] + Trim(b.attempt);
      assert Key(a) == Trim(a.project) + ['|'] + p && Key(b) == Trim(b.project) + ['|'] + q;
      BarSplits(Trim(a.project), p, Trim(b.project), q);
      BarSplits(Trim(a.run), Trim(a.attempt), Trim(b.run), Trim(b.attempt));
    }
  }

  /** What is chosen for a request: the best window of its snapshot for its provider, account,
      install and kind. */
  lemma ChosenFor(r: Request)
    ensures Chosen(r) == if r.snapshot.None? then None else Pick(Wanted(r.provider, r.account, r.install, r.kind), r.snapshot.value)
  {}

  /** A known attempt is handed out again only while held, and only to a request of the same
      identity in every respect. */
  lemma ReuseIff(s: Ledger, r: Request, verdict: Verdict, expires: Time, saved: bool)
    requires !RequestInvalid(r) && Key(r.attempt) in s.mem
    ensures var e, out := s.mem[Key(r.attempt)], ReserveAnswer(s, r, verdict, expires, saved);
      var id := e.identity;
      && (out == Answer(Some(e), None) <==>
            && e.state == Reserved && !Blank(id.plan) && !Blank(id.graph) && !Blank(id.taskClass) && !Blank(id.contract)
            && Trim(id.plan) == Trim(r.plan) && Trim(id.graph) == Trim(r.graph) && Trim(id.taskClass) == Trim(r.taskClass)
            && Trim(id.contract) == Trim(r.contract) && Trim(id.provider) == Trim(r.provider) && Trim(id.model) == Trim(r.model)
            && Trim(id.depth) == Trim(r.depth) && id.account == r.account && Trim(e.install) == Trim(r.install)
            && KindEqual(id.kind, r.kind))
      && (out != Answer(Some(e), None) ==> out == Failed(Invalid) || out == Failed(Conflict))
      && (out == Failed(Conflict) ==> e.state == Reserved && ProductComplete(id))
      && (out == Failed(Invalid) ==> e.state != Reserved || !ProductComplete(id))
      && ReserveStep(s, r, verdict, expires, saved) == s
  {}

  // ----- Reconcile -----

  function Bounded(v: real): real {
    if v < 0.0 then 0.0 else if v > 1.0 then 1.0 else v
  }

  /** The first reconciliation records the fraction of the call, and derives what remains unless
      that was observed. */
  lemma ReconcileRecords(s: Ledger, a: Attempt, fraction: real, source: string, counted: bool, saved: bool)
    requires Key(a) in s.mem && s.mem[Key(a)].state != Reconciled
    ensures var t, e := ReconcileStep(s, a, fraction, source, counted, saved), s.mem[Key(a)];
      && t.mem.Keys == s.mem.Keys && (forall k :: k in s.mem && k != Key(a) ==> t.mem[k] == s.mem[k])
      && t.disk == (if saved then t.mem else s.disk)
      && t.issued == s.issued + (if e.hold.Some? && counted then 1 else 0)
      && var f := t.mem[Key(a)];
         && f.actual == Some(Bounded(fraction)) && f.source == Trim(source) && f.state == Reconciled
         && f == e.(actual := f.actual, source := f.source, state := f.state, after := f.after)
         && (e.after.Observed? ==> f.after == e.after)
         && (!e.after.Observed? ==> f.after == Derived(if Bounded(fraction) > e.before then 0.0 else e.before - Bounded(fraction)))
  {}

  /** A second reconciliation changes nothing, and agrees or conflicts. */
  lemma ReconcileAgain(s: Ledger, a: Attempt, fraction: real, source: string, counted: bool, saved: bool)
    requires Key(a) in s.mem && s.mem[Key(a)].state == Reconciled && s.mem[Key(a)].actual.Some?
    ensures ReconcileStep(s, a, fraction, source, counted, saved) == s
    ensures var e, out := s.mem[Key(a)], ReconcileAnswer(s, a, fraction, source, saved);
      var d := e.actual.value - Bounded(fraction);
      out == if -0.000000001 < d < 0.000000001 && Lower(Trim(e.source)) == Lower(Trim(source)) then Answer(Some(e), None)
             else Failed(Conflict)
  {}

  function NextReport(s: Ledger, op: Op, k: string, report: Option<(real, string)>): Option<(real, string)> {
    if report.None? && op.Reconcile? && Key(op.attempt) == k && k in s.mem
    then Some((Bounded(op.fraction), Trim(op.source))) else report
  }

  /** What the first Reconcile of the attempt in the run reported, if there was one. */
  ghost function Reported(s: Ledger, ops: seq<Op>, k: string): Option<(real, string)>
    decreases |ops|
  {
    if ops == [] then None
    else
      NextReport(Run(s, ops[..|ops| - 1]), ops[|ops| - 1], k, Reported(s, ops[..|ops| - 1], k))
  }

  predicate Says(m: map<string, Entry>, k: string, report: Option<(real, string)>) {
    && (report.Some? ==> k in m)
    && (k in m ==>
          && (m[k].state == Reconciled <==> report.Some?)
          && (report.Some? ==> m[k].actual == Some(report.value.0) && m[k].source == report.value.1))
  }

  lemma ReopenSays(s: Ledger, op: Op, k: string, report: Option<(real, string)>)
    requires Says(s.mem, k, report) && Lossless(s, op) && op.Reopen?
    ensures Says(Step(s, op).mem, k, report)
  {
    if k in s.mem {
      assert Reopens(s, op.now, op.saved) ==> Step(s, op).mem[k] == Reload(s.mem[k], op.now);
    }
  }

  lemma NewcomerSays(s: Ledger, op: Op, k: string)
    requires !op.Reopen? && k !in s.mem
    ensures Says(Step(s, op).mem, k, None)
  {}

  lemma StepSays(s: Ledger, op: Op, k: string, report: Option<(real, string)>)
    requires Says(s.mem, k, report) && Lossless(s, op)
    ensures Says(Step(s, op).mem, k, NextReport(s, op, k, report))
  {
    if op.Reopen? {
      ReopenSays(s, op, k, report);
    } else if k !in s.mem {
      NewcomerSays(s, op, k);
    } else {
      StepOnEntry(s, op, k);
    }
  }

  /** Over every lossless run an attempt is reconciled exactly if a Reconcile reached it, with the
      fraction and the source of the first one that did. */
  lemma {:induction false} FirstReportStays(s: Ledger, ops: seq<Op>, k: string)
    requires LosslessRun(s, ops) && (k in s.mem ==> s.mem[k].state != Reconciled)
    ensures Says(Run(s, ops).mem, k, Reported(s, ops, k))
    decreases |ops|
  {
    if ops != [] {
      FirstReportStays(s, ops[..|ops| - 1], k);
      StepSays(Run(s, ops[..|ops| - 1]), ops[|ops| - 1], k, Reported(s, ops[..|ops| - 1], k));
    }
  }

  // ----- Release, Observe, Reopen -----

  /** A reserved or refused entry is released and its actual forgotten; any other stays. */
  lemma ReleaseRecords(s: Ledger, a: Attempt, saved: bool)
    requires Key(a) in s.mem
    ensures var t, e := ReleaseStep(s, a, saved), s.mem[Key(a)];
      && (e.state == Reserved || e.state == Refused ==>
            t.mem == s.mem[Key(a) := e.(state := Released, actual := None, source := "")] && t.disk == (if saved then t.mem else s.disk))
      && (e.state != Reserved && e.state != Refused ==> t == s)
  {}

  /** An observation counts if it is bound to the entry's own account, install and window, has a
      source, a freshness and a time, and shows no rise, or a rise with evidence of a reset. */
  lemma ObserveIff(s: Ledger, a: Attempt, o: Observation)
    requires Key(a) in s.mem
    ensures var e := s.mem[Key(a)];
      Accepts(s, a, o) <==>
      && !o.account.Missing? && o.account == e.identity.account && !Blank(o.kind) && KindEqual(o.kind, e.identity.kind)
      && !Blank(o.install) && (Blank(e.install) || e.install == Trim(o.install))
      && !Blank(o.source) && !Blank(o.freshness) && o.at.Some?
      && (Bounded(o.fraction) <= e.before + 0.001 || (o.resetObserved && !Blank(o.resetEvidence)))
  {
    KindEqualIff(Trim(o.kind), s.mem[Key(a)].identity.kind);
    KindEqualIff(o.kind, s.mem[Key(a)].identity.kind);
    TrimTwice(o.kind);
  }

  lemma ObserveRecords(s: Ledger, a: Attempt, o: Observation, saved: bool)
    requires Accepts(s, a, o)
    ensures var t, e := ObserveStep(s, a, o, saved), s.mem[Key(a)];
      && t.mem == s.mem[Key(a) := e.(install := Trim(o.install), after := Observed(Bounded(o.fraction), Trim(o.source)))]
      && t.disk == (if saved then t.mem else s.disk) && t.issued == s.issued
  {}

  /** A rejected observation is not written; one bound to the entry still fills in its install. */
  lemma ObserveRejected(s: Ledger, a: Attempt, o: Observation, saved: bool)
    requires Key(a) in s.mem && !Accepts(s, a, o)
    ensures var t, e := ObserveStep(s, a, o, saved), s.mem[Key(a)];
      && t.disk == s.disk && t.issued == s.issued
      && t.mem == s.mem[Key(a) := if Bound(e, o) then e.(install := Trim(o.install)) else e]
  {}

  /** A hold in the file that is over, or lacks its identity. */
  predicate Over(e: Entry, now: Time) {
    var until := if e.expires.Some? then e.expires else e.reset;
    e.state == Reserved
    && (Blank(e.identity.plan) || Blank(e.identity.graph) || Blank(e.identity.taskClass) || Blank(e.identity.contract)
        || until.None? || until.value <= now)
  }

  /** A file is readable if each hold in it has provider, model, account, kind, a number, something
      reserved and, with its identity, an end, and no number is used twice. */
  lemma ReadableIff(m: map<string, Entry>)
    ensures Loads(m) <==>
      && (forall k, l :: k in m && l in m && m[k].hold.Some? && m[k].hold == m[l].hold ==> k == l)
      && (forall k :: k in m && m[k].state == Reserved ==>
            && !Blank(m[k].identity.provider) && !Blank(m[k].identity.model) && !m[k].identity.account.Missing?
            && !Blank(m[k].identity.kind) && m[k].hold.Some? && m[k].reserved > 0.0
            && (m[k].expires.Some? || m[k].reset.Some? || !ProductComplete(m[k].identity)))
  {}

  /** A readable file is opened unless a hold in it is over and cannot be written as released. */
  lemma ReopensIff(s: Ledger, now: Time, saved: bool)
    ensures Reopens(s, now, saved) <==> Loads(s.disk) && (saved || forall k :: k in s.disk ==> !Over(s.disk[k], now))
  {
    var m := s.disk;
    forall k | k in m ensures Reloaded(m, now)[k] == m[k] <==> !Over(m[k], now) {}
    if forall k :: k in m ==> !Over(m[k], now) {
      assert Reloaded(m, now) == m;
    } else {
      var k :| k in m && Over(m[k], now);
      assert Reloaded(m, now)[k] != m[k];
    }
  }

  /** Opening takes over the file; a hold whose time is over, or that lacks its identity, is released. */
  lemma ReopenRecords(s: Ledger, now: Time, saved: bool, k: string)
    requires Reopens(s, now, saved) && k in s.disk
    ensures var t, e := ReopenStep(s, now, saved), s.disk[k];
      var until := if e.expires.Some? then e.expires else e.reset;
      var complete := !Blank(e.identity.plan) && !Blank(e.identity.graph) && !Blank(e.identity.taskClass) && !Blank(e.identity.contract);
      && t.mem.Keys == s.disk.Keys && t.disk == t.mem
      && t.mem[k] == if e.state == Reserved && (!complete || until.None? || until.value <= now) then e.(state := Released) else e
  {}
}

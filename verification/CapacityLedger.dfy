/** The capacity ledger as it works: a map of entries changed in place, and the file behind it. */
module CapacityLedger {
  import opened Common
  import opened CapacityWindows
  import opened CapacityModel
  import opened CapacitySafety

  // ----- Reading the file, one entry after the other -----

  ghost predicate Uses(m: map<string, Entry>, n: nat) {
    exists k :: k in m && m[k].hold == Some(n)
  }

  lemma HighestUnique(m: map<string, Entry>, x: nat, y: nat)
    requires IsHighest(m, x) && IsHighest(m, y)
    ensures x == y
  {}

  lemma LoadsNext(done: map<string, Entry>, k: string, e: Entry)
    requires Loads(done) && k !in done && EntryLoads(e) && (e.hold.Some? ==> !Uses(done, e.hold.value))
    ensures Loads(done[k := e])
  {}

  lemma UsesNext(done: map<string, Entry>, k: string, e: Entry, n: nat)
    requires k !in done
    ensures Uses(done[k := e], n) <==> Uses(done, n) || e.hold == Some(n)
  {
    var m := done[k := e];
    if Uses(done, n) {
      var i :| i in done && done[i].hold == Some(n);
      assert i in m && m[i].hold == Some(n);
    }
    if e.hold == Some(n) {
      assert k in m && m[k].hold == Some(n);
    }
  }

  lemma HighestNext(done: map<string, Entry>, k: string, e: Entry, n: nat)
    requires k !in done && IsHighest(done, n)
    ensures IsHighest(done[k := e], if Number(e) > n then Number(e) else n)
  {
    var m := done[k := e];
    assert m[k] == e;
    if n > 0 && Number(e) <= n {
      var i :| i in done && Number(done[i]) == n;
      assert i in m && Number(m[i]) == n;
    }
  }

  lemma ReloadedNext(done: map<string, Entry>, k: string, e: Entry, now: Time)
    requires k !in done
    ensures Reloaded(done[k := e], now) == Reloaded(done, now)[k := Reload(e, now)]
    ensures Reloaded(done[k := e], now) == done[k := e] <==> Reloaded(done, now) == done && Reload(e, now) == e
  {
    var m := done[k := e];
    if Reloaded(m, now) == m {
      assert Reloaded(m, now)[k] == Reload(e, now);
      forall i | i in done
        ensures Reloaded(done, now)[i] == done[i]
      {
        assert Reloaded(m, now)[i] == m[i];
      }
    }
  }

  /** An entry that cannot be loaded, or a hold that is used twice, makes the file unreadable. */
  lemma Unreadable(doc: map<string, Entry>, done: map<string, Entry>, k: string)
    requires k in doc && k !in done && forall i :: i in done ==> i in doc && done[i] == doc[i]
    requires !EntryLoads(doc[k]) || (doc[k].hold.Some? && Uses(done, doc[k].hold.value))
    ensures !Loads(doc)
  {}

  /** What is known after the entries `done` were read. */
  datatype Progress = Progress(entries: map<string, Entry>, dirty: bool, highest: nat, seen: set<nat>)

  ghost predicate Tracks(p: Progress, done: map<string, Entry>, now: Time) {
    && Loads(done) && IsHighest(done, p.highest)
    && (forall n :: n in p.seen <==> Uses(done, n))
    && p.entries == Reloaded(done, now) && (p.dirty <==> p.entries != done)
  }

  method LoadEntry(p: Progress, k: string, e: Entry, now: Time, ghost done: map<string, Entry>) returns (q: Progress)
    requires Tracks(p, done, now) && k !in done && EntryLoads(e) && (e.hold.Some? ==> e.hold.value !in p.seen)
    ensures Tracks(q, done[k := e], now)
  {
    LoadsNext(done, k, e);
    HighestNext(done, k, e, p.highest);
    ReloadedNext(done, k, e, now);
    forall n: nat ensures Uses(done[k := e], n) <==> Uses(done, n) || e.hold == Some(n) {
      UsesNext(done, k, e, n);
    }
    var highest, seen := p.highest, p.seen;
    if e.hold.Some? {
      seen := seen + {e.hold.value};
      highest := if e.hold.value > highest then e.hold.value else highest;
    }
    var lapsed := e.state.Reserved? && Lapsed(e, now);
    var loaded := if lapsed then e.(state := Released) else e;
    q := Progress(p.entries[k := loaded], p.dirty || lapsed, highest, seen);
  }

  method LoadFile(doc: map<string, Entry>, now: Time)
    returns (ok: bool, entries: map<string, Entry>, dirty: bool, highest: nat)
    ensures ok <==> Loads(doc)
    ensures ok ==> entries == Reloaded(doc, now) && (dirty <==> entries != doc) && highest == Highest(doc)
  {
    var p := Progress(map[], false, 0, {});
    var todo := doc.Keys;
    ghost var done: map<string, Entry> := map[];
    while todo != {}
      invariant forall k :: k in doc <==> k in todo || k in done
      invariant forall k :: k in done ==> k !in todo && done[k] == doc[k]
      invariant Tracks(p, done, now)
      decreases |todo|
    {
      var k :| k in todo;
      if !EntryLoads(doc[k]) || (doc[k].hold.Some? && doc[k].hold.value in p.seen) {
        Unreadable(doc, done, k);
        return false, p.entries, p.dirty, p.highest;
      }
      p := LoadEntry(p, k, doc[k], now, done);
      done := done[k := doc[k]];
      todo := todo - {k};
    }
    assert done == doc;
    HighestUnique(doc, p.highest, Highest(doc));
    ok, entries, dirty, highest := true, p.entries, p.dirty, p.highest;
  }

  // ----- The ledger -----

  class Book {
    var byKey: map<string, Entry>
    var file: map<string, Entry>
    var issued: nat

    ghost function Contents(): Ledger
      reads this
    {
      Ledger(byKey, file, issued)
    }

    ghost predicate Valid()
      reads this
    {
      LedgerOk(Contents())
    }

    constructor ()
      ensures Valid() && Contents() == EMPTY_LEDGER
    {
      byKey, file, issued := map[], map[], 0;
    }

    method Save(saved: bool)
      modifies this`file
      ensures Contents() == Written(old(Contents()), saved)
    {
      if saved {
        file := byKey;
      }
    }

    /** The soft-reservation store: it draws a number for a grant and for a refusal for want of headroom. */
    method StoreReserve(r: Request, verdict: Verdict) returns (hold: Hold)
      modifies this`issued
      ensures hold == CapacityModel.StoreReserve(old(issued), r, verdict)
      ensures issued == if NumberOf(hold).Some? then NumberOf(hold).value else old(issued)
    {
      if StoreRejects(r) || verdict == Contended {
        return NotHeld(None);
      }
      issued := issued + 1;
      hold := if verdict == Grant then Held(issued, Clamp01(Demand(r))) else NotHeld(Some(issued));
    }

    /** An attempt that is known is handed out again only while held, and only to its own request. */
    static method Recheck(e: Entry, r: Request) returns (answer: Answer)
      ensures answer.entry.Some? <==> e.state.Reserved? && ProductComplete(e.identity) && IdentityMatches(e, r)
      ensures answer == if answer.entry.Some? then Answer(Some(e), None)
                        else if e.state.Reserved? && ProductComplete(e.identity) then Failed(Conflict) else Failed(Invalid)
    {
      if !e.state.Reserved? || !ProductComplete(e.identity) {
        return Failed(Invalid);
      }
      answer := if IdentityMatches(e, r) then Answer(Some(e), None) else Failed(Conflict);
    }

    method Reserve(r: Request, verdict: Verdict, expires: Time, saved: bool) returns (answer: Answer)
      modifies this
      ensures Contents() == ReserveStep(old(Contents()), r, verdict, expires, saved)
      ensures answer == ReserveAnswer(old(Contents()), r, verdict, expires, saved)
    {
      if RequestInvalid(r) {
        return Failed(Invalid);
      }
      var key := Key(r.attempt);
      if key in byKey {
        answer := Recheck(byKey[key], r);
        return;
      }
      answer := OpenEntry(r, verdict, expires, saved);
    }

    /** The attempt is new: an entry is recorded, held or refused. */
    method OpenEntry(r: Request, verdict: Verdict, expires: Time, saved: bool) returns (answer: Answer)
      modifies this
      ensures Contents() == Written(Ledger(old(byKey)[Key(r.attempt) := NewEntry(old(Contents()), r, verdict, expires)],
                                           old(file), IssuedBy(old(Contents()), r, verdict)), saved)
      ensures answer.entry == Some(NewEntry(old(Contents()), r, verdict, expires))
      ensures answer.error == if Chosen(r).None? then Some(NoWindow)
                              else if answer.entry.value.state.Refused? then Some(HoldDeclined) else SaveError(saved)
    {
      var choice: Option<Choice> := None;
      if r.snapshot.Some? {
        choice := PickWindow(WantedBy(r), r.snapshot.value);
      }
      var e: Entry;
      if choice.None? {
        e := WithoutWindow(r);
        answer := Answer(Some(e), Some(NoWindow));
      } else {
        var hold := StoreReserve(r, verdict);
        e := WithWindow(r, choice.value, hold, expires);
        answer := Answer(Some(e), if hold.NotHeld? then Some(HoldDeclined) else SaveError(saved));
      }
      byKey := byKey[Key(r.attempt) := e];
      Save(saved);
    }

    method Reconcile(a: Attempt, fraction: real, source: string, counted: bool, saved: bool) returns (answer: Answer)
      modifies this
      ensures Contents() == ReconcileStep(old(Contents()), a, fraction, source, counted, saved)
      ensures answer == ReconcileAnswer(old(Contents()), a, fraction, source, saved)
    {
      var key := Key(a);
      if key !in byKey {
        return Failed(Invalid);
      }
      var e, actual := byKey[key], Clamp01(fraction);
      if e.state == Reconciled {
        if e.actual.None? {
          return Failed(Invalid);
        }
        var same := SameActual(e.actual.value, actual) && Lower(Trim(e.source)) == Lower(Trim(source));
        return if same then Answer(Some(e), None) else Failed(Conflict);
      }
      if e.hold.Some? && counted {
        issued := issued + 1;
      }
      e := e.(actual := Some(actual), source := Trim(source));
      if !e.after.Observed? {
        e := e.(after := Derived(DerivedAfter(e.before, actual)));
      }
      e := e.(state := Reconciled);
      byKey := byKey[key := e];
      Save(saved);
      answer := Answer(Some(e), SaveError(saved));
    }

    method Release(a: Attempt, saved: bool) returns (answer: Answer)
      modifies this
      ensures Contents() == ReleaseStep(old(Contents()), a, saved)
      ensures answer == ReleaseAnswer(old(Contents()), a, saved)
    {
      var key := Key(a);
      if key !in byKey {
        return Failed(Invalid);
      }
      var e := byKey[key];
      if Settled(e.state) {
        return Answer(Some(e), None);
      }
      e := e.(state := Released, actual := None, source := "");
      byKey := byKey[key := e];
      Save(saved);
      answer := Answer(Some(e), SaveError(saved));
    }

    /** The entry is changed piece by piece; a late rejection leaves the pieces already changed. */
    method ObserveAfterBound(a: Attempt, o: Observation, saved: bool) returns (answer: Answer)
      modifies this
      ensures Contents() == ObserveStep(old(Contents()), a, o, saved)
      ensures answer == ObserveAnswer(old(Contents()), a, o, saved)
    {
      var key := Key(a);
      if key !in byKey {
        return Failed(Invalid);
      }
      var e := byKey[key];
      if !Bound(e, o) {
        assert byKey == byKey[key := e];
        return Failed(Invalid);
      }
      e := e.(install := Trim(o.install));
      byKey := byKey[key := e];
      if Blank(o.source) || Blank(o.freshness) || o.at.None? {
        return Failed(Invalid);
      }
      var v := Clamp01(o.fraction);
      if v > e.before + RISE_TOLERANCE && !HasResetEvidence(o) {
        return Failed(Invalid);
      }
      e := e.(after := Observed(v, Trim(o.source)));
      byKey := byKey[key := e];
      Save(saved);
      answer := Answer(Some(e), SaveError(saved));
    }

    /** Opening the ledger again from its file; if that fails nothing takes the old one's place. */
    method Reopen(now: Time, saved: bool) returns (ok: bool)
      modifies this
      ensures Contents() == ReopenStep(old(Contents()), now, saved)
      ensures ok <==> Reopens(old(Contents()), now, saved)
    {
      var loaded, entries, dirty, highest := LoadFile(file, now);
      ok := loaded && (saved || !dirty);
      if ok {
        byKey, file, issued := entries, entries, highest;
      }
    }

    method Perform(op: Op)
      requires Valid()
      modifies this
      ensures Valid() && Contents() == Step(old(Contents()), op)
    {
      StepKeepsLedger(Contents(), op);
      match op {
        case Reserve(r, verdict, expires, saved) =>
          var _ := Reserve(r, verdict, expires, saved);
        case Reconcile(a, fraction, source, counted, saved) =>
          var _ := Reconcile(a, fraction, source, counted, saved);
        case Release(a, saved) =>
          var _ := Release(a, saved);
        case Observe(a, o, saved) =>
          var _ := ObserveAfterBound(a, o, saved);
        case Reopen(now, saved) =>
          var _ := Reopen(now, saved);
      }
    }

    /** Any run of the ledger: everything proved of runs holds of what it leaves. */
    method PerformAll(ops: seq<Op>)
      requires Valid()
      modifies this
      ensures Valid() && Contents() == Run(old(Contents()), ops)
    {
      for i := 0 to |ops|
        invariant Valid() && Contents() == Run(old(Contents()), ops[..i])
      {
        Perform(ops[i]);
        assert ops[..i + 1][..i] == ops[..i];
      }
      assert ops[..|ops|] == ops;
    }
  }
}

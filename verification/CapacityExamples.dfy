/** Runs of the capacity ledger that lose a write, and a request that conflicts with itself. */
module CapacityExamples {
  import opened Common
  import opened CapacityWindows
  import opened CapacityModel
  import opened CapacitySafety

  function SampleWindow(kind: string): Window {
    Window(kind, false, Unlimited, Unmeasured, None, Exact, Fresh, "s")
  }

  /** A request with a snapshot that offers just the window it asks for. */
  function Sample(attempt: string, kind: string): Request {
    Request(Attempt("p", "r", attempt), "d", "g", "t", "c", "v", "m", "", Full("a"), "i", kind, 0.5,
            Some([Row("v", Full("a"), "i", [SampleWindow(kind)])]))
  }

  lemma OneLetter(s: string)
    requires |s| == 1 && !IsSpace(s[0])
    ensures Trim(s) == s && !Blank(s)
  {}

  lemma SampleChoice(attempt: string, kind: string)
    ensures Chosen(Sample(attempt, kind)).Some?
  {
    var r := Sample(attempt, kind);
    KindEqualTrim(kind, kind);
    assert Eligible(WantedBy(r), r.snapshot.value, 0, 0);
    PickIsBest(WantedBy(r), r.snapshot.value);
  }

  lemma SampleGrantable(attempt: string, kind: string)
    requires !Blank(attempt) && !Blank(kind) && MapWindowKind(kind) != ""
    ensures Grantable(Sample(attempt, kind))
  {
    SampleChoice(attempt, kind);
    OneLetter("p");
    OneLetter("d");
    OneLetter("g");
    OneLetter("t");
    OneLetter("c");
    OneLetter("v");
    OneLetter("m");
    OneLetter("i");
  }

  /** The first hold is number 1, and its lost write is forgotten by a restart. */
  lemma LostWriteForgets(r: Request, expires: Time, now: Time)
    requires Grantable(r)
    ensures var s := Step(EMPTY_LEDGER, Reserve(r, Grant, expires, false));
      && Obtains(EMPTY_LEDGER, Reserve(r, Grant, expires, false), Key(r.attempt))
      && Key(r.attempt) in s.mem && s.mem[Key(r.attempt)].hold == Some(1)
      && Step(s, Reopen(now, true)) == EMPTY_LEDGER
  {
    var s := Step(EMPTY_LEDGER, Reserve(r, Grant, expires, false));
    assert s.disk == map[];
    assert Reloaded(s.disk, now) == map[];
  }

  lemma RunNext(s: Ledger, ops: seq<Op>, op: Op)
    ensures Run(s, ops + [op]) == Step(Run(s, ops), op)
  {
    assert (ops + [op])[..|ops|] == ops;
  }

  lemma RunOfThree(s: Ledger, a: Op, b: Op, c: Op)
    ensures Run(s, [a]) == Step(s, a) && Run(s, [a, b]) == Step(Step(s, a), b)
    ensures Run(s, [a, b, c]) == Step(Step(Step(s, a), b), c)
  {
    assert [] + [a] == [a] && [a] + [b] == [a, b] && [a, b] + [c] == [a, b, c];
    RunNext(s, [], a);
    RunNext(s, [a], b);
    RunNext(s, [a, b], c);
  }

  /** A reservation whose write is lost, a restart, and the same request again: two holds. */
  lemma LostWriteHoldsTwice(r: Request, expires: Time, now: Time)
    requires Grantable(r)
    ensures HoldsObtained(EMPTY_LEDGER, [Reserve(r, Grant, expires, false), Reopen(now, true), Reserve(r, Grant, expires, false)],
                          Key(r.attempt)) == 2
  {
    var reserve, reopen, k := Reserve(r, Grant, expires, false), Reopen(now, true), Key(r.attempt);
    LostWriteForgets(r, expires, now);
    RunOfThree(EMPTY_LEDGER, reserve, reopen, reserve);
    assert [reserve, reopen, reserve][..2] == [reserve, reopen] && [reserve, reopen][..1] == [reserve] && [reserve][..0] == [];
    assert HoldsObtained(EMPTY_LEDGER, [], k) == 0;
    assert HoldsObtained(EMPTY_LEDGER, [reserve], k) == 1;
    assert HoldsObtained(EMPTY_LEDGER, [reserve, reopen], k) == 1;
  }

  /** With another attempt after the restart: both were given the hold number 1. */
  lemma LostWriteSharesNumber(r: Request, q: Request, expires: Time, now: Time)
    requires Grantable(r) && Grantable(q)
    ensures var s := Step(EMPTY_LEDGER, Reserve(r, Grant, expires, false));
      var t := Step(Step(s, Reopen(now, true)), Reserve(q, Grant, expires, false));
      && Key(r.attempt) in s.mem && s.mem[Key(r.attempt)].hold == Some(1)
      && Key(q.attempt) in t.mem && t.mem[Key(q.attempt)].hold == Some(1)
  {
    LostWriteForgets(r, expires, now);
    LostWriteForgets(q, expires, now);
  }

  lemma KindsUsable()
    ensures !Blank("weekly") && MapWindowKind("weekly") != ""
    ensures !Blank("rate-limit") && MapWindowKind("rate-limit") != "" && Lower(Trim("rate-limit")) == "rate-limit"
  {
    TrimOfTight("weekly");
    TrimOfTight("rate-limit");
    assert |Lower("weekly")| == 6 && |Lower("rate-limit")| == 10;
    assert Lower("rate-limit") == "rate-limit";
  }

  /** There are such requests. */
  lemma LostWriteWitness()
    ensures Grantable(Sample("a", "weekly")) && Grantable(Sample("b", "weekly"))
  {
    KindsUsable();
    OneLetter("a");
    OneLetter("b");
    SampleGrantable("a", "weekly");
    SampleGrantable("b", "weekly");
  }

  /** The same request for a window of the kind "rate-limit" twice: the second is a conflict,
      although nothing happened in between. */
  lemma RateLimitConflictsWithItself(expires: Time)
    ensures var r := Sample("a", "rate-limit");
      var s := Step(EMPTY_LEDGER, Reserve(r, Grant, expires, true));
      && Obtains(EMPTY_LEDGER, Reserve(r, Grant, expires, true), Key(r.attempt))
      && ReserveAnswer(s, r, Grant, expires, true) == Failed(Conflict)
  {
    var r := Sample("a", "rate-limit");
    KindsUsable();
    OneLetter("a");
    SampleGrantable("a", "rate-limit");
    SelfConflict(r, expires);
  }

  lemma SelfConflict(r: Request, expires: Time)
    requires Grantable(r) && Lower(Trim(r.kind)) == "rate-limit"
    ensures var s := Step(EMPTY_LEDGER, Reserve(r, Grant, expires, true));
      && Obtains(EMPTY_LEDGER, Reserve(r, Grant, expires, true), Key(r.attempt))
      && ReserveAnswer(s, r, Grant, expires, true) == Failed(Conflict)
  {
    var op := Reserve(r, Grant, expires, true);
    var s := Step(EMPTY_LEDGER, op);
    ObtainedEntry(EMPTY_LEDGER, op);
    StepKeepsLedger(EMPTY_LEDGER, op);
    KnownAnswer(s, op);
  }
}

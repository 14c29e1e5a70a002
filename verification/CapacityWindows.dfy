/** Capacity windows: their kinds, what remains of them, and the choice of the best one. */
module CapacityWindows {
  import opened Common

  type Time = int

  // ----- Window kinds -----

  function LowerChar(c: char): char {
    if 'A' <= c <= 'Z' then (c as int + 32) as char else c
  }

  function Lower(s: string): string {
    seq(|s|, i requires 0 <= i < |s| => LowerChar(s[i]))
  }

  predicate WeekAlias(k: string) {
    k == "weekly" || k == "fixed-week" || k == "fixed_week"
  }

  predicate FiveHourAlias(k: string) {
    k == "five_hour" || k == "fixed_hour" || k == "fixed-hour" || k == "5h" || k == "fixedhour"
  }

  /** The kind an entry is stored under. */
  function MapWindowKind(kind: string): string {
    var k := Lower(Trim(kind));
    if WeekAlias(k) then "weekly"
    else if FiveHourAlias(k) then "five_hour"
    else if k == "rate_limit" || k == "rate-limit" then "rate_limit"
    else k
  }

  /** The kind two names are compared by: here "rate-limit" is no alias. */
  function NormalizeToken(kind: string): string {
    var k := Lower(Trim(kind));
    if WeekAlias(k) then "weekly" else if FiveHourAlias(k) then "five_hour" else k
  }

  predicate KindEqual(a: string, b: string) {
    Trim(a) == Trim(b) || NormalizeToken(Trim(a)) == NormalizeToken(Trim(b))
  }

  predicate Tight(s: string) {
    s == "" || (!IsSpace(s[0]) && !IsSpace(s[|s| - 1]))
  }

  lemma TrimTight(s: string)
    ensures Tight(Trim(s))
  {
    var _, _ := TrimMeans(s);
  }

  lemma TrimOfTight(s: string)
    requires Tight(s)
    ensures Trim(s) == s
  {}

  lemma TrimTwice(s: string)
    ensures Trim(Trim(s)) == Trim(s)
  {
    TrimTight(s);
    TrimOfTight(Trim(s));
  }

  lemma LowerTwice(s: string)
    ensures Lower(Lower(s)) == Lower(s)
  {}

  lemma KindEqualIff(a: string, b: string)
    ensures KindEqual(a, b) <==> NormalizeToken(a) == NormalizeToken(b)
  {
    TrimTwice(a);
    TrimTwice(b);
  }

  lemma TokenOfSettled(s: string)
    requires Tight(s) && Lower(s) == s && !WeekAlias(s) && !FiveHourAlias(s)
    ensures NormalizeToken(s) == s
  {}

  lemma TokenOfCanonical()
    ensures NormalizeToken("weekly") == "weekly"
    ensures NormalizeToken("five_hour") == "five_hour"
    ensures NormalizeToken("rate_limit") == "rate_limit"
  {
    TrimOfTight("weekly");
    assert Lower("weekly") == "weekly";
    TrimOfTight("five_hour");
    assert Lower("five_hour") == "five_hour";
    TrimOfTight("rate_limit");
    assert Lower("rate_limit") == "rate_limit";
  }

  lemma TokenOfMapped(kind: string)
    ensures Lower(Trim(kind)) != "rate-limit" ==> NormalizeToken(MapWindowKind(kind)) == NormalizeToken(kind)
    ensures Lower(Trim(kind)) == "rate-limit" ==> NormalizeToken(MapWindowKind(kind)) == "rate_limit"
  {
    TokenOfCanonical();
    var k := Lower(Trim(kind));
    if !WeekAlias(k) && !FiveHourAlias(k) && k != "rate_limit" && k != "rate-limit" {
      TrimTight(kind);
      LowerTwice(Trim(kind));
      TokenOfSettled(k);
    }
  }

  lemma TokenIsRateLimitIff(kind: string)
    ensures NormalizeToken(kind) == "rate-limit" <==> Lower(Trim(kind)) == "rate-limit"
  {}

  lemma StoredTokenEqualIff(found: string, wanted: string)
    requires NormalizeToken(found) == NormalizeToken(wanted)
    ensures NormalizeToken(MapWindowKind(found)) == NormalizeToken(wanted) <==> Lower(Trim(wanted)) != "rate-limit"
  {
    TokenOfMapped(found);
    TokenIsRateLimitIff(found);
    TokenIsRateLimitIff(wanted);
    if Lower(Trim(found)) == "rate-limit" {
      assert "rate_limit"[4] != "rate-limit"[4];
    }
  }

  /** A window found under the requested kind is stored under a kind that still equals the
      requested one, except for the one alias that only the stored form knows. */
  lemma StoredKindEqualIff(found: string, wanted: string)
    requires KindEqual(found, wanted)
    ensures KindEqual(MapWindowKind(found), wanted) <==> Lower(Trim(wanted)) != "rate-limit"
  {
    KindEqualIff(found, wanted);
    KindEqualIff(MapWindowKind(found), wanted);
    StoredTokenEqualIff(found, wanted);
  }

  // ----- What remains of a window -----

  datatype Quantity = Unlimited | Finite(value: real) | Zero(value: real) | Unmeasured

  datatype Freshness = Fresh | NotFresh

  datatype Confidence = Exact | Estimated | Unknown | OtherConfidence

  datatype Window = Window(
    kind: string, percentage: bool, remaining: Quantity, limit: Quantity, reset: Option<Time>,
    confidence: Confidence, freshness: Freshness, source: string)

  function Clamp01(v: real): (r: real)
    ensures 0.0 <= r <= 1.0
    ensures 0.0 <= v <= 1.0 ==> r == v
  {
    if v < 0.0 then 0.0 else if v > 1.0 then 1.0 else v
  }

  function RemainingFraction(w: Window): (r: Option<real>)
    ensures r.Some? ==> 0.0 <= r.value <= 1.0
  {
    if w.remaining.Unlimited? then Some(1.0)
    else if w.remaining.Unmeasured? then None
    else if w.limit.Finite? && w.limit.value > 0.0 then Some(Clamp01(w.remaining.value / w.limit.value))
    else if !w.percentage then None
    else
      var v := if w.remaining.value > 1.0 then w.remaining.value / 100.0 else w.remaining.value;
      if v < 0.0 then None else Some(Clamp01(v))
  }

  // ----- The candidates -----

  /** An account reference in canonical form: absent, a collision-prone truncated one, or a full one. */
  datatype Account = Missing | Truncated(ref: string) | Full(ref: string)

  datatype Row = Row(provider: string, account: Account, install: string, windows: seq<Window>)

  /** What a window has to match; a missing account, a blank install or kind matches everything. */
  datatype Wanted = Wanted(provider: string, account: Account, install: string, kind: string)

  datatype Choice = Choice(window: Window, account: Account)

  predicate RowMatches(want: Wanted, row: Row) {
    Trim(row.provider) == Trim(want.provider)
    && (want.account.Missing? || row.account == want.account)
    && (Blank(want.install) || Trim(row.install) == Trim(want.install))
  }

  predicate WindowMatches(want: Wanted, w: Window) {
    w.freshness.Fresh? && !w.confidence.Unknown?
    && (Blank(want.kind) || KindEqual(w.kind, Trim(want.kind)))
    && RemainingFraction(w).Some?
  }

  predicate Eligible(want: Wanted, rows: seq<Row>, i: int, j: int) {
    0 <= i < |rows| && 0 <= j < |rows[i].windows| && RowMatches(want, rows[i]) && WindowMatches(want, rows[i].windows[j])
  }

  /** `c` is the eligible window (i, j) together with the account that owns it. */
  predicate Offered(want: Wanted, rows: seq<Row>, i: int, j: int, c: Choice) {
    Eligible(want, rows, i, j) && c == Choice(rows[i].windows[j], rows[i].account)
  }

  predicate Usable(c: Choice) {
    RemainingFraction(c.window).Some?
  }

  /** More remains, or as much and it resets sooner. */
  predicate Beats(c: Choice, d: Choice)
    requires Usable(c) && Usable(d)
  {
    var f, g := RemainingFraction(c.window).value, RemainingFraction(d.window).value;
    f > g || (f == g && c.window.reset.Some?
              && (d.window.reset.None? || c.window.reset.value < d.window.reset.value))
  }

  /** A newcomer has to beat the best so far. */
  function Challenge(best: Option<Choice>, c: Choice): (r: Option<Choice>)
    requires Usable(c) && (best.Some? ==> Usable(best.value))
    ensures r.Some? && Usable(r.value)
  {
    if best.None? || Beats(c, best.value) then Some(c) else best
  }

  function PickInRow(want: Wanted, row: Row, j: nat, best: Option<Choice>): (r: Option<Choice>)
    requires j <= |row.windows| && (best.Some? ==> Usable(best.value))
    ensures r.Some? ==> Usable(r.value)
  {
    if j == 0 then best
    else
      var p, w := PickInRow(want, row, j - 1, best), row.windows[j - 1];
      if WindowMatches(want, w) then Challenge(p, Choice(w, row.account)) else p
  }

  function PickUpTo(want: Wanted, rows: seq<Row>, i: nat): (r: Option<Choice>)
    requires i <= |rows|
    ensures r.Some? ==> Usable(r.value)
  {
    if i == 0 then None
    else
      var p, row := PickUpTo(want, rows, i - 1), rows[i - 1];
      if RowMatches(want, row) then PickInRow(want, row, |row.windows|, p) else p
  }

  function Pick(want: Wanted, rows: seq<Row>): (r: Option<Choice>)
    ensures r.Some? ==> Usable(r.value)
  {
    PickUpTo(want, rows, |rows|)
  }

  // ----- The choice is the best of all offers -----

  /** The offers among a row's first `j` windows, in order. */
  function RowOffers(want: Wanted, row: Row, j: nat): (r: seq<Choice>)
    requires j <= |row.windows|
    ensures forall c :: c in r ==> Usable(c)
  {
    if j == 0 then []
    else
      RowOffers(want, row, j - 1)
      + (if WindowMatches(want, row.windows[j - 1]) then [Choice(row.windows[j - 1], row.account)] else [])
  }

  /** The offers of the first `i` rows, in order. */
  function Offers(want: Wanted, rows: seq<Row>, i: nat): (r: seq<Choice>)
    requires i <= |rows|
    ensures forall c :: c in r ==> Usable(c)
  {
    if i == 0 then []
    else
      Offers(want, rows, i - 1)
      + (if RowMatches(want, rows[i - 1]) then RowOffers(want, rows[i - 1], |rows[i - 1].windows|) else [])
  }

  ghost predicate IsBest(cs: seq<Choice>, best: Option<Choice>)
    requires forall c :: c in cs ==> Usable(c)
  {
    && (best.None? <==> cs == [])
    && (best.Some? ==> best.value in cs && forall c :: c in cs ==> !Beats(c, best.value))
  }

  lemma ChallengeKeepsBest(cs: seq<Choice>, best: Option<Choice>, c: Choice)
    requires Usable(c) && (forall d :: d in cs ==> Usable(d)) && IsBest(cs, best)
    ensures IsBest(cs + [c], Challenge(best, c))
  {}

  lemma {:induction false} RowKeepsBest(want: Wanted, row: Row, j: nat, cs: seq<Choice>, best: Option<Choice>)
    requires j <= |row.windows| && (forall d :: d in cs ==> Usable(d)) && IsBest(cs, best)
    ensures IsBest(cs + RowOffers(want, row, j), PickInRow(want, row, j, best))
  {
    if j == 0 {
      assert cs + RowOffers(want, row, j) == cs;
    } else {
      RowKeepsBest(want, row, j - 1, cs, best);
      var seen, p, w := cs + RowOffers(want, row, j - 1), PickInRow(want, row, j - 1, best), row.windows[j - 1];
      if WindowMatches(want, w) {
        ChallengeKeepsBest(seen, p, Choice(w, row.account));
        assert cs + RowOffers(want, row, j) == seen + [Choice(w, row.account)];
      } else {
        assert cs + RowOffers(want, row, j) == seen;
      }
    }
  }

  lemma {:induction false} PickKeepsBest(want: Wanted, rows: seq<Row>, i: nat)
    requires i <= |rows|
    ensures IsBest(Offers(want, rows, i), PickUpTo(want, rows, i))
  {
    if i > 0 {
      PickKeepsBest(want, rows, i - 1);
      var seen, row := Offers(want, rows, i - 1), rows[i - 1];
      if RowMatches(want, row) {
        RowKeepsBest(want, row, |row.windows|, seen, PickUpTo(want, rows, i - 1));
      } else {
        assert Offers(want, rows, i) == seen;
      }
    }
  }

  lemma {:induction false} RowOffersSound(want: Wanted, row: Row, l: nat, c: Choice)
    requires l <= |row.windows| && c in RowOffers(want, row, l)
    ensures exists j :: 0 <= j < l && WindowMatches(want, row.windows[j]) && c == Choice(row.windows[j], row.account)
  {
    if c in RowOffers(want, row, l - 1) {
      RowOffersSound(want, row, l - 1, c);
    }
  }

  lemma {:induction false} RowOffersComplete(want: Wanted, row: Row, l: nat, j: nat)
    requires j < l <= |row.windows| && WindowMatches(want, row.windows[j])
    ensures Choice(row.windows[j], row.account) in RowOffers(want, row, l)
  {
    if j < l - 1 {
      RowOffersComplete(want, row, l - 1, j);
    }
  }

  lemma {:induction false} OffersSound(want: Wanted, rows: seq<Row>, k: nat, c: Choice)
    requires k <= |rows| && c in Offers(want, rows, k)
    ensures exists i, j :: Offered(want, rows, i, j, c)
  {
    if c in Offers(want, rows, k - 1) {
      OffersSound(want, rows, k - 1, c);
    } else {
      var row := rows[k - 1];
      RowOffersSound(want, row, |row.windows|, c);
      var j :| 0 <= j < |row.windows| && WindowMatches(want, row.windows[j]) && c == Choice(row.windows[j], row.account);
      assert Offered(want, rows, k - 1, j, c);
    }
  }

  lemma {:induction false} OffersComplete(want: Wanted, rows: seq<Row>, k: nat, i: nat, j: nat)
    requires i < k <= |rows| && Eligible(want, rows, i, j)
    ensures Choice(rows[i].windows[j], rows[i].account) in Offers(want, rows, k)
  {
    if i < k - 1 {
      OffersComplete(want, rows, k - 1, i, j);
    } else {
      RowOffersComplete(want, rows[i], |rows[i].windows|, j);
    }
  }

  /** The choice: an eligible window with its own account that no eligible window beats; none
      exactly if there is no eligible window. */
  lemma PickIsBest(want: Wanted, rows: seq<Row>)
    ensures Pick(want, rows).Some? <==> exists i, j :: Eligible(want, rows, i, j)
    ensures Pick(want, rows).Some? ==> exists i, j :: Offered(want, rows, i, j, Pick(want, rows).value)
    ensures forall i, j, c :: Offered(want, rows, i, j, c) ==> Pick(want, rows).Some? && !Beats(c, Pick(want, rows).value)
  {
    PickKeepsBest(want, rows, |rows|);
    if Pick(want, rows).Some? {
      OffersSound(want, rows, |rows|, Pick(want, rows).value);
    }
    forall i, j, c | Offered(want, rows, i, j, c)
      ensures Pick(want, rows).Some? && !Beats(c, Pick(want, rows).value)
    {
      OffersComplete(want, rows, |rows|, i, j);
    }
    if i, j :| Eligible(want, rows, i, j) {
      assert Offered(want, rows, i, j, Choice(rows[i].windows[j], rows[i].account));
    }
  }

  method PickWindow(want: Wanted, rows: seq<Row>) returns (best: Option<Choice>)
    ensures best == Pick(want, rows)
    ensures best.Some? <==> exists i, j :: Eligible(want, rows, i, j)
    ensures best.Some? ==> exists i, j :: Offered(want, rows, i, j, best.value)
    ensures forall i, j, c :: Offered(want, rows, i, j, c) ==> best.Some? && Usable(best.value) && !Beats(c, best.value)
  {
    best := None;
    for i := 0 to |rows|
      invariant best == PickUpTo(want, rows, i)
    {
      var row := rows[i];
      if Trim(row.provider) != Trim(want.provider) {
        continue;
      }
      if !want.account.Missing? && row.account != want.account {
        continue;
      }
      if !Blank(want.install) && Trim(row.install) != Trim(want.install) {
        continue;
      }
      for j := 0 to |row.windows|
        invariant best == PickInRow(want, row, j, PickUpTo(want, rows, i))
      {
        var w := row.windows[j];
        if w.freshness != Fresh || w.confidence == Unknown || (!Blank(want.kind) && !KindEqual(w.kind, Trim(want.kind))) {
          continue;
        }
        var f := RemainingFraction(w);
        if f.None? {
          continue;
        }
        if best.None? {
          best := Some(Choice(w, row.account));
          continue;
        }
        var g := RemainingFraction(best.value.window);
        if f.value > g.value {
          best := Some(Choice(w, row.account));
          continue;
        }
        if f.value < g.value {
          continue;
        }
        var held := best.value.window.reset;
        if w.reset.Some? && (held.None? || w.reset.value < held.value) {
          best := Some(Choice(w, row.account));
        }
      }
    }
    PickIsBest(want, rows);
  }
}

/** Forced-restart evidence from an event log: one pass over the events, then scans of
    the maps it filled, proved equal to what the evidence means about the whole log. */
module ForcedRestart {
  import opened Common

  datatype EventKind = Interrupt | Terminal | Integrate | Launch | Reuse | Other

  /** The classes the derivation tells apart; `Absent` is the empty text. */
  datatype FailureClass = Absent | ForcedInterrupt | HardKillRecovery | OtherFailure(text: string)

  datatype InterruptClass = NoClass | ServiceForcedInterrupt | HardKill | OtherClass(text: string)

  datatype TerminalState = NoTerminal | Cancelled | Succeeded | OtherTerminal(text: string)

  /** The payload fields that are looked up, with missing ones empty. */
  datatype Payload = Payload(
    interruptId: string, interruptClass: InterruptClass, failureClass: FailureClass, terminal: TerminalState)

  datatype Event = Event(
    kind: EventKind, item: string, attempt: string, failureClass: FailureClass, terminal: TerminalState,
    payload: Payload)

  datatype Key = Key(item: string, attempt: string)

  /** What identifies an interruption. */
  datatype Info = Info(id: string, failureClass: FailureClass, interruptClass: InterruptClass)

  function KeyOf(e: Event): Key {
    Key(e.item, e.attempt)
  }

  function InfoOf(e: Event): Info {
    Info(e.payload.interruptId, if e.failureClass.Absent? then e.payload.failureClass else e.failureClass,
         e.payload.interruptClass)
  }

  function TerminalOf(e: Event): TerminalState {
    if e.terminal.NoTerminal? then e.payload.terminal else e.terminal
  }

  predicate Forced(i: Info) {
    (i.failureClass.ForcedInterrupt? && i.interruptClass.ServiceForcedInterrupt?)
    || (i.failureClass.HardKillRecovery? && i.interruptClass.HardKill?)
  }

  predicate Identified(e: Event) {
    e.item != "" && e.attempt != "" && InfoOf(e).id != ""
  }

  predicate IsInterrupt(e: Event) {
    e.kind == Interrupt && Identified(e) && Forced(InfoOf(e))
  }

  predicate IsCancel(e: Event) {
    e.kind == Terminal && TerminalOf(e).Cancelled? && Identified(e)
  }

  predicate IsSuccess(e: Event) {
    e.kind == Terminal && TerminalOf(e).Succeeded? && e.item != ""
  }

  predicate IsIntegrate(e: Event) {
    e.kind == Integrate && e.item != ""
  }

  predicate IsLaunch(e: Event) {
    e.kind == Launch && e.attempt != ""
  }

  // ----- Which events count -----

  /** The class an event fails with: its own, or that of its payload. */
  function ClassOf(e: Event): FailureClass {
    if e.failureClass == Absent then e.payload.failureClass else e.failureClass
  }

  function OutcomeOf(e: Event): TerminalState {
    if e.terminal == NoTerminal then e.payload.terminal else e.terminal
  }

  /** An interrupt counts if it names its work item, attempt and interruption, and is one of the
      two forced kinds: forced by the service, or a hard kill that was recovered. */
  lemma InterruptIff(e: Event)
    ensures IsInterrupt(e) <==>
      && e.kind == Interrupt && e.item != "" && e.attempt != "" && e.payload.interruptId != ""
      && ((ClassOf(e) == ForcedInterrupt && e.payload.interruptClass == ServiceForcedInterrupt)
          || (ClassOf(e) == HardKillRecovery && e.payload.interruptClass == HardKill))
  {}

  lemma TerminalIff(e: Event)
    ensures IsCancel(e) <==>
      && e.kind == Terminal && OutcomeOf(e) == Cancelled
      && e.item != "" && e.attempt != "" && e.payload.interruptId != ""
    ensures IsSuccess(e) <==> e.kind == Terminal && OutcomeOf(e) == Succeeded && e.item != ""
  {}

  lemma OtherEventsIff(e: Event)
    ensures IsIntegrate(e) <==> e.kind == Integrate && e.item != ""
    ensures IsLaunch(e) <==> e.kind == Launch && e.attempt != ""
  {}

  /** Two events tell of the same interruption of the same attempt. */
  lemma SameInterruptionIff(e: Event, f: Event)
    ensures KeyOf(e) == KeyOf(f) && InfoOf(e) == InfoOf(f) <==>
      && e.item == f.item && e.attempt == f.attempt && e.payload.interruptId == f.payload.interruptId
      && ClassOf(e) == ClassOf(f) && e.payload.interruptClass == f.payload.interruptClass
  {}

  // ----- What the evidence means -----

  /** The index of the last qualifying interrupt of `k`, if any. */
  function LastInterrupt(es: seq<Event>, k: Key): Option<nat> {
    if es == [] then None
    else if IsInterrupt(es[|es| - 1]) && KeyOf(es[|es| - 1]) == k then Some(|es| - 1)
    else LastInterrupt(es[..|es| - 1], k)
  }

  /** Event `j` is a cancelled terminal that matches the latest earlier interrupt of
      its attempt. */
  predicate Aborts(es: seq<Event>, j: nat)
    requires j < |es|
  {
    var last := LastInterrupt(es[..j], KeyOf(es[j]));
    IsCancel(es[j]) && last.Some? && last.value < j && InfoOf(es[last.value]) == InfoOf(es[j])
  }

  /** Event `i` is the last qualifying interrupt of this attempt before event `j`. */
  predicate LatestInterrupt(es: seq<Event>, i: nat, j: nat)
    requires i < |es| && j < |es|
  {
    && i < j && IsInterrupt(es[i]) && KeyOf(es[i]) == KeyOf(es[j])
    && forall l :: i < l < j && IsInterrupt(es[l]) ==> KeyOf(es[l]) != KeyOf(es[j])
  }

  lemma {:induction false} LastInterruptMeans(es: seq<Event>, k: Key)
    ensures match LastInterrupt(es, k)
      case None => forall l :: 0 <= l < |es| && IsInterrupt(es[l]) ==> KeyOf(es[l]) != k
      case Some(i) =>
        && i < |es| && IsInterrupt(es[i]) && KeyOf(es[i]) == k
        && forall l :: i < l < |es| && IsInterrupt(es[l]) ==> KeyOf(es[l]) != k
    decreases |es|
  {
    if es != [] {
      LastInterruptMeans(es[..|es| - 1], k);
    }
  }

  /** What an abort is, said without the search. */
  lemma AbortsMeans(es: seq<Event>, j: nat)
    requires j < |es|
    ensures Aborts(es, j) <==>
      (IsCancel(es[j]) && exists i :: 0 <= i < j && LatestInterrupt(es, i, j) && InfoOf(es[i]) == InfoOf(es[j]))
  {
    var before := es[..j];
    LastInterruptMeans(before, KeyOf(es[j]));
    if Aborts(es, j) {
      assert LatestInterrupt(es, LastInterrupt(before, KeyOf(es[j])).value, j);
    }
    if i :| 0 <= i < j && LatestInterrupt(es, i, j) && InfoOf(es[i]) == InfoOf(es[j]) {
      assert before[i] == es[i];
      var last := LastInterrupt(before, KeyOf(es[j])).value;
      assert before[last] == es[last];
      assert i == last;
    }
  }

  /** Event `j` is the last abort of its work item: the one that is recorded. */
  predicate RecordedAbort(es: seq<Event>, j: nat)
    requires j < |es|
  {
    Aborts(es, j) && forall l :: j < l < |es| && Aborts(es, l) ==> es[l].item != es[j].item
  }

  predicate MeansInterrupted(es: seq<Event>) {
    exists j :: 0 <= j < |es| && Aborts(es, j)
  }

  predicate MeansDuplicateLaunch(es: seq<Event>) {
    exists i, j :: 0 <= i < j < |es| && IsLaunch(es[i]) && IsLaunch(es[j]) && es[i].attempt == es[j].attempt
  }

  /** Double integration counts only for a work item that has a success. */
  ghost predicate MeansDuplicateSuccess(es: seq<Event>) {
    exists s, i, j :: Repeats(es, s, i, j)
  }

  predicate Repeats(es: seq<Event>, s: int, i: int, j: int) {
    0 <= s < |es| && 0 <= i < j < |es| && IsSuccess(es[s])
    && es[i].item == es[s].item && es[j].item == es[s].item
    && ((IsSuccess(es[i]) && IsSuccess(es[j])) || (IsIntegrate(es[i]) && IsIntegrate(es[j])))
  }

  /** A log that integrates a work item twice is not reported; with a success of the item it is. */
  lemma IntegratedTwice(e: Event, success: Event)
    requires IsIntegrate(e) && IsSuccess(success) && success.item == e.item
    ensures !MeansDuplicateSuccess([e, e]) && MeansDuplicateSuccess([e, e, success])
  {
    assert Repeats([e, e, success], 2, 0, 1);
  }

  /** An aborted attempt also succeeded or was integrated, anywhere in the log. */
  ghost predicate MeansAbortedSucceeded(es: seq<Event>) {
    exists j, l :: SucceedsAborted(es, j, l)
  }

  predicate SucceedsAborted(es: seq<Event>, j: int, l: int) {
    0 <= j < |es| && 0 <= l < |es| && Aborts(es, j)
    && KeyOf(es[l]) == KeyOf(es[j]) && (IsSuccess(es[l]) || IsIntegrate(es[l]))
  }

  /** A work item whose recorded abort has a launch of a higher generation. */
  ghost predicate MeansLaterResume(es: seq<Event>, gen: string -> int) {
    exists j, l :: ResumesLater(es, gen, j, l)
  }

  predicate ResumesLater(es: seq<Event>, gen: string -> int, j: int, l: int) {
    0 <= j < |es| && 0 <= l < |es| && RecordedAbort(es, j)
    && IsLaunch(es[l]) && es[l].item == es[j].item && gen(es[l].attempt) > gen(es[j].attempt)
  }

  function CountReuse(es: seq<Event>): nat {
    if es == [] then 0 else CountReuse(es[..|es| - 1]) + if es[|es| - 1].kind == Reuse then 1 else 0
  }

  // ----- The pass -----

  datatype Tally = Tally(
    interrupts: map<Key, Info>, cancelled: set<Key>, aborted: map<string, string>,
    succeeded: set<Key>, integrated: set<Key>,
    successes: map<string, nat>, integrates: map<string, nat>, launches: map<string, nat>,
    generations: map<string, seq<int>>, reuse: nat)

  const EMPTY_TALLY := Tally(map[], {}, map[], {}, {}, map[], map[], map[], map[], 0)

  function Bump(m: map<string, nat>, k: string): map<string, nat> {
    m[k := (if k in m then m[k] else 0) + 1]
  }

  predicate CancelMatches(interrupts: map<Key, Info>, e: Event) {
    IsCancel(e) && KeyOf(e) in interrupts && interrupts[KeyOf(e)] == InfoOf(e) && Forced(InfoOf(e))
  }

  function NextInterrupts(m: map<Key, Info>, e: Event): map<Key, Info> {
    if IsInterrupt(e) then m[KeyOf(e) := InfoOf(e)] else m
  }

  function NextAborted(m: map<string, string>, e: Event, hit: bool): map<string, string> {
    if hit then m[e.item := e.attempt] else m
  }

  function NextKeys(s: set<Key>, e: Event, hit: bool): set<Key> {
    if hit && e.attempt != "" then s + {KeyOf(e)} else s
  }

  function NextCounts(m: map<string, nat>, k: string, hit: bool): map<string, nat> {
    if hit then Bump(m, k) else m
  }

  function NextGenerations(m: map<string, seq<int>>, e: Event, gen: string -> int): map<string, seq<int>> {
    if IsLaunch(e) && e.item != ""
    then m[e.item := (if e.item in m then m[e.item] else []) + [gen(e.attempt)]] else m
  }

  /** The tally after one more event, map by map. */
  function Absorb(t: Tally, e: Event, gen: string -> int): Tally {
    Tally(NextInterrupts(t.interrupts, e),
          NextKeys(t.cancelled, e, CancelMatches(t.interrupts, e)),
          NextAborted(t.aborted, e, CancelMatches(t.interrupts, e)),
          NextKeys(t.succeeded, e, IsSuccess(e)), NextKeys(t.integrated, e, IsIntegrate(e)),
          NextCounts(t.successes, e.item, IsSuccess(e)), NextCounts(t.integrates, e.item, IsIntegrate(e)),
          NextCounts(t.launches, e.attempt, IsLaunch(e)),
          NextGenerations(t.generations, e, gen), t.reuse + if e.kind == Reuse then 1 else 0)
  }

  method AbsorbTerminal(t: Tally, e: Event, gen: string -> int) returns (u: Tally)
    requires e.kind == Terminal
    ensures u == Absorb(t, e, gen)
  {
    u := t;
    var terminal, info, k := TerminalOf(e), InfoOf(e), KeyOf(e);
    if terminal.Cancelled? && e.item != "" && e.attempt != "" && info.id != "" {
      if k in u.interrupts && u.interrupts[k] == info && Forced(info) {
        u := u.(cancelled := u.cancelled + {k}, aborted := u.aborted[e.item := e.attempt]);
      }
    }
    if terminal.Succeeded? && e.item != "" {
      u := u.(successes := Bump(u.successes, e.item));
      if e.attempt != "" {
        u := u.(succeeded := u.succeeded + {k});
      }
    }
  }

  method AbsorbLaunch(t: Tally, e: Event, gen: string -> int) returns (u: Tally)
    requires e.kind == Launch
    ensures u == Absorb(t, e, gen)
  {
    u := t;
    if e.attempt != "" {
      u := u.(launches := Bump(u.launches, e.attempt));
      if e.item != "" {
        var known := if e.item in u.generations then u.generations[e.item] else [];
        u := u.(generations := u.generations[e.item := known + [gen(e.attempt)]]);
      }
    }
  }

  /** The switch of the pass. */
  method AbsorbEvent(t: Tally, e: Event, gen: string -> int) returns (u: Tally)
    ensures u == Absorb(t, e, gen)
  {
    u := t;
    match e.kind {
      case Interrupt =>
        if e.item != "" && e.attempt != "" && InfoOf(e).id != "" && Forced(InfoOf(e)) {
          u := u.(interrupts := u.interrupts[KeyOf(e) := InfoOf(e)]);
        }
      case Terminal => u := AbsorbTerminal(u, e, gen);
      case Integrate =>
        if e.item != "" {
          u := u.(integrates := Bump(u.integrates, e.item));
          if e.attempt != "" {
            u := u.(integrated := u.integrated + {KeyOf(e)});
          }
        }
      case Launch => u := AbsorbLaunch(u, e, gen);
      case Reuse => u := u.(reuse := u.reuse + 1);
      case Other =>
    }
  }

  /** The tally of a whole log. */
  function TallyOf(es: seq<Event>, gen: string -> int): Tally {
    if es == [] then EMPTY_TALLY else Absorb(TallyOf(es[..|es| - 1], gen), es[|es| - 1], gen)
  }

  // ----- What each map holds after a prefix -----

  /** The interrupt map holds what the search would find. */
  ghost predicate InterruptsOk(es: seq<Event>, m: map<Key, Info>) {
    forall k :: InterruptOk(es, m, k)
  }

  predicate InterruptOk(es: seq<Event>, m: map<Key, Info>, k: Key) {
    match LastInterrupt(es, k)
    case None => k !in m
    case Some(i) => k in m && i < |es| && m[k] == InfoOf(es[i]) && IsInterrupt(es[i])
  }

  lemma InterruptsNext(es: seq<Event>, m: map<Key, Info>, e: Event)
    requires InterruptsOk(es, m)
    ensures InterruptsOk(es + [e], NextInterrupts(m, e))
  {
    var next, n := es + [e], NextInterrupts(m, e);
    assert next[..|es|] == es;
    forall k ensures InterruptOk(next, n, k) {
      assert InterruptOk(es, m, k);
    }
  }

  /** Looking the attempt up in the map finds exactly the aborts. */
  lemma CancelMatchesIffAborts(es: seq<Event>, m: map<Key, Info>, e: Event)
    requires InterruptsOk(es, m)
    ensures CancelMatches(m, e) <==> Aborts(es + [e], |es|)
  {
    assert (es + [e])[..|es|] == es;
    assert InterruptOk(es, m, KeyOf(e));
  }

  /** Later events do not change which earlier events are aborts. */
  lemma AbortsStable(es: seq<Event>, e: Event, j: nat)
    requires j < |es|
    ensures Aborts(es + [e], j) <==> Aborts(es, j)
  {
    assert (es + [e])[..j] == es[..j];
  }

  predicate CancelledOk(es: seq<Event>, s: set<Key>) {
    && (forall k :: k in s ==> exists j :: 0 <= j < |es| && Aborts(es, j) && KeyOf(es[j]) == k)
    && (forall j :: 0 <= j < |es| && Aborts(es, j) ==> KeyOf(es[j]) in s)
  }

  predicate LastAbort(es: seq<Event>, j: nat, item: string, attempt: string) {
    j < |es| && RecordedAbort(es, j) && es[j].item == item && es[j].attempt == attempt
  }

  ghost predicate AbortedOk(es: seq<Event>, m: map<string, string>) {
    && (forall w :: w in m ==> exists j: nat :: LastAbort(es, j, w, m[w]))
    && (forall j :: 0 <= j < |es| && Aborts(es, j) ==> es[j].item in m)
  }

  lemma CancelledNext(es: seq<Event>, s: set<Key>, e: Event, hit: bool)
    requires CancelledOk(es, s) && hit == Aborts(es + [e], |es|)
    ensures CancelledOk(es + [e], NextKeys(s, e, hit))
  {
    var next, n := es + [e], NextKeys(s, e, hit);
    forall k | k in n ensures exists j :: 0 <= j < |next| && Aborts(next, j) && KeyOf(next[j]) == k {
      if k in s {
        var j :| 0 <= j < |es| && Aborts(es, j) && KeyOf(es[j]) == k;
        AbortsStable(es, e, j);
        assert Aborts(next, j) && KeyOf(next[j]) == k;
      } else {
        assert Aborts(next, |es|) && KeyOf(next[|es|]) == k;
      }
    }
    forall j | 0 <= j < |next| && Aborts(next, j) ensures KeyOf(next[j]) in n {
      if j < |es| {
        AbortsStable(es, e, j);
        assert next[j] == es[j];
      }
    }
  }

  lemma RecordedStable(es: seq<Event>, e: Event, j: nat)
    requires j < |es| && RecordedAbort(es, j)
    ensures RecordedAbort(es + [e], j) <==> !(Aborts(es + [e], |es|) && e.item == es[j].item)
  {
    var next := es + [e];
    forall l | 0 <= l < |es| ensures Aborts(next, l) <==> Aborts(es, l) {
      AbortsStable(es, e, l);
    }
  }

  lemma AbortedNext(es: seq<Event>, m: map<string, string>, e: Event, hit: bool)
    requires AbortedOk(es, m) && hit == Aborts(es + [e], |es|)
    ensures AbortedOk(es + [e], NextAborted(m, e, hit))
  {
    var next, n := es + [e], NextAborted(m, e, hit);
    forall w | w in n ensures exists j: nat :: LastAbort(next, j, w, n[w]) {
      if hit && w == e.item {
        assert LastAbort(next, |es|, w, n[w]);
      } else {
        var j: nat :| LastAbort(es, j, w, m[w]);
        RecordedStable(es, e, j);
        assert LastAbort(next, j, w, n[w]);
      }
    }
    forall j | 0 <= j < |next| && Aborts(next, j) ensures next[j].item in n {
      if j < |es| {
        AbortsStable(es, e, j);
        assert next[j] == es[j];
      }
    }
  }

  /** How often a property holds in the log. */
  function Count(es: seq<Event>, p: Event -> bool): nat {
    if es == [] then 0 else Count(es[..|es| - 1], p) + if p(es[|es| - 1]) then 1 else 0
  }

  lemma {:induction false} CountMeans(es: seq<Event>, p: Event -> bool)
    ensures Count(es, p) > 0 <==> exists i :: 0 <= i < |es| && p(es[i])
    ensures Count(es, p) > 1 <==> exists i, j :: 0 <= i < j < |es| && p(es[i]) && p(es[j])
    decreases |es|
  {
    if es != [] {
      var init, n := es[..|es| - 1], |es| - 1;
      CountMeans(init, p);
      assert forall i :: 0 <= i < n ==> init[i] == es[i];
      if i :| 0 <= i < n && p(init[i]) {
        assert p(es[i]);
      }
      if i, j :| 0 <= i < j < n && p(init[i]) && p(init[j]) {
        assert p(es[i]) && p(es[j]);
      }
    }
  }

  function SuccessOf(w: string): Event -> bool {
    (e: Event) => IsSuccess(e) && e.item == w
  }

  function IntegrateOf(w: string): Event -> bool {
    (e: Event) => IsIntegrate(e) && e.item == w
  }

  function LaunchOf(a: string): Event -> bool {
    (e: Event) => IsLaunch(e) && e.attempt == a
  }

  /** A counter map holds exactly the non-zero counts. */
  ghost predicate CountsOk(es: seq<Event>, m: map<string, nat>, p: string -> (Event -> bool)) {
    forall w :: (if w in m then m[w] else 0) == Count(es, p(w)) && (w in m ==> m[w] > 0)
  }

  lemma CountsNext(es: seq<Event>, e: Event, m: map<string, nat>, p: string -> (Event -> bool), k: string, hit: bool)
    requires CountsOk(es, m, p)
    requires forall w :: p(w)(e) <==> hit && w == k
    ensures CountsOk(es + [e], NextCounts(m, k, hit), p)
  {}

  /** A key set holds the attempts that an event of some kind names. */
  predicate KeysOk(es: seq<Event>, s: set<Key>, p: Event -> bool) {
    && (forall k :: k in s ==> exists l :: 0 <= l < |es| && p(es[l]) && KeyOf(es[l]) == k)
    && (forall l :: 0 <= l < |es| && p(es[l]) && es[l].attempt != "" ==> KeyOf(es[l]) in s)
  }

  lemma KeysNext(es: seq<Event>, e: Event, s: set<Key>, p: Event -> bool)
    requires KeysOk(es, s, p)
    ensures KeysOk(es + [e], NextKeys(s, e, p(e)), p)
  {
    var next, n := es + [e], NextKeys(s, e, p(e));
    forall k | k in n ensures exists l :: 0 <= l < |next| && p(next[l]) && KeyOf(next[l]) == k {
      if k in s {
        var l :| 0 <= l < |es| && p(es[l]) && KeyOf(es[l]) == k;
        assert next[l] == es[l];
      } else {
        assert next[|es|] == e;
      }
    }
  }

  predicate GenerationsOk(es: seq<Event>, m: map<string, seq<int>>, gen: string -> int) {
    && (forall w, g :: w in m && g in m[w] ==>
          exists l :: 0 <= l < |es| && IsLaunch(es[l]) && es[l].item == w && gen(es[l].attempt) == g)
    && (forall l :: 0 <= l < |es| && IsLaunch(es[l]) && es[l].item != "" ==>
          es[l].item in m && gen(es[l].attempt) in m[es[l].item])
  }

  lemma GenerationsNext(es: seq<Event>, m: map<string, seq<int>>, e: Event, gen: string -> int)
    requires GenerationsOk(es, m, gen)
    ensures GenerationsOk(es + [e], NextGenerations(m, e, gen), gen)
  {
    var next, n := es + [e], NextGenerations(m, e, gen);
    forall w, g | w in n && g in n[w]
      ensures exists l :: 0 <= l < |next| && IsLaunch(next[l]) && next[l].item == w && gen(next[l].attempt) == g {
      if w in m && g in m[w] {
        var l :| 0 <= l < |es| && IsLaunch(es[l]) && es[l].item == w && gen(es[l].attempt) == g;
        assert next[l] == es[l];
      } else {
        assert next[|es|] == e;
      }
    }
  }

  lemma {:induction false} TallyInterrupts(es: seq<Event>, gen: string -> int)
    ensures InterruptsOk(es, TallyOf(es, gen).interrupts)
    decreases |es|
  {
    if es != [] {
      var init, e := es[..|es| - 1], es[|es| - 1];
      TallyInterrupts(init, gen);
      InterruptsNext(init, TallyOf(init, gen).interrupts, e);
      assert init + [e] == es;
    }
  }

  lemma {:induction false} TallyAborts(es: seq<Event>, gen: string -> int)
    ensures CancelledOk(es, TallyOf(es, gen).cancelled) && AbortedOk(es, TallyOf(es, gen).aborted)
    decreases |es|
  {
    if es != [] {
      var init, e := es[..|es| - 1], es[|es| - 1];
      var t := TallyOf(init, gen);
      TallyAborts(init, gen);
      TallyInterrupts(init, gen);
      CancelMatchesIffAborts(init, t.interrupts, e);
      assert init + [e] == es;
      CancelledNext(init, t.cancelled, e, CancelMatches(t.interrupts, e));
      AbortedNext(init, t.aborted, e, CancelMatches(t.interrupts, e));
    }
  }

  lemma {:induction false} TallyKeys(es: seq<Event>, gen: string -> int)
    ensures KeysOk(es, TallyOf(es, gen).succeeded, IsSuccess) && KeysOk(es, TallyOf(es, gen).integrated, IsIntegrate)
    decreases |es|
  {
    if es != [] {
      var init, e := es[..|es| - 1], es[|es| - 1];
      var t := TallyOf(init, gen);
      TallyKeys(init, gen);
      KeysNext(init, e, t.succeeded, IsSuccess);
      KeysNext(init, e, t.integrated, IsIntegrate);
      assert init + [e] == es;
    }
  }

  lemma {:induction false} TallyCounts(es: seq<Event>, gen: string -> int)
    ensures CountsOk(es, TallyOf(es, gen).successes, SuccessOf)
    ensures CountsOk(es, TallyOf(es, gen).integrates, IntegrateOf)
    ensures CountsOk(es, TallyOf(es, gen).launches, LaunchOf)
    decreases |es|
  {
    if es != [] {
      var init, e := es[..|es| - 1], es[|es| - 1];
      var t := TallyOf(init, gen);
      TallyCounts(init, gen);
      CountsNext(init, e, t.successes, SuccessOf, e.item, IsSuccess(e));
      CountsNext(init, e, t.integrates, IntegrateOf, e.item, IsIntegrate(e));
      CountsNext(init, e, t.launches, LaunchOf, e.attempt, IsLaunch(e));
      assert init + [e] == es;
    }
  }

  lemma {:induction false} TallyRest(es: seq<Event>, gen: string -> int)
    ensures GenerationsOk(es, TallyOf(es, gen).generations, gen) && TallyOf(es, gen).reuse == CountReuse(es)
    decreases |es|
  {
    if es != [] {
      var init, e := es[..|es| - 1], es[|es| - 1];
      TallyRest(init, gen);
      GenerationsNext(init, TallyOf(init, gen).generations, e, gen);
      assert init + [e] == es;
    }
  }

  // ----- The scans -----

  datatype Evidence = Evidence(
    interrupted: bool, aborted: map<string, string>, reuse: nat, duplicateLaunch: bool,
    duplicateSuccess: bool, abortedSucceeded: bool, laterResume: bool)

  predicate AboveOne(m: map<string, nat>) {
    exists k :: k in m && m[k] > 1
  }

  predicate DuplicateSuccess(successes: map<string, nat>, integrates: map<string, nat>) {
    exists w :: w in successes && (successes[w] > 1 || (w in integrates && integrates[w] > 1))
  }

  predicate Shared(a: set<Key>, b: set<Key>) {
    exists k :: k in a && k in b
  }

  predicate Exceeds(generations: map<string, seq<int>>, w: string, g: int) {
    w in generations && exists h :: h in generations[w] && h > g
  }

  predicate Later(aborted: map<string, string>, generations: map<string, seq<int>>, gen: string -> int) {
    exists w :: w in aborted && Exceeds(generations, w, gen(aborted[w]))
  }

  /** Visits the entries in any order and stops at the first that exceeds one. */
  method AnyAboveOne(m: map<string, nat>) returns (found: bool)
    ensures found <==> AboveOne(m)
  {
    var rest := m.Keys;
    while rest != {}
      invariant rest <= m.Keys && forall k :: k in m && k !in rest ==> m[k] <= 1
      decreases rest
    {
      var k :| k in rest;
      if m[k] > 1 {
        return true;
      }
      rest := rest - {k};
    }
    found := false;
  }

  method AnyDuplicateSuccess(successes: map<string, nat>, integrates: map<string, nat>) returns (found: bool)
    ensures found <==> DuplicateSuccess(successes, integrates)
  {
    var rest := successes.Keys;
    while rest != {}
      invariant rest <= successes.Keys
      invariant forall w :: w in successes && w !in rest ==>
        successes[w] <= 1 && (w in integrates ==> integrates[w] <= 1)
      decreases rest
    {
      var w :| w in rest;
      if successes[w] > 1 {
        return true;
      }
      if w in integrates && integrates[w] > 1 {
        return true;
      }
      rest := rest - {w};
    }
    found := false;
  }

  method AnyShared(a: set<Key>, b: set<Key>) returns (found: bool)
    ensures found <==> Shared(a, b)
  {
    var rest := a;
    while rest != {}
      invariant rest <= a && forall k :: k in a && k !in rest ==> k !in b
      decreases rest
    {
      var k :| k in rest;
      if k in b {
        return true;
      }
      rest := rest - {k};
    }
    found := false;
  }

  method AnyHigher(launched: seq<int>, g: int) returns (found: bool)
    ensures found <==> exists h :: h in launched && h > g
  {
    for i := 0 to |launched|
      invariant forall j :: 0 <= j < i ==> launched[j] <= g
    {
      if launched[i] > g {
        assert launched[i] in launched;
        return true;
      }
    }
    found := false;
  }

  /** Only the inner loop stops early; the flag is never taken back. */
  method AnyLater(aborted: map<string, string>, generations: map<string, seq<int>>, gen: string -> int) returns (found: bool)
    ensures found <==> Later(aborted, generations, gen)
  {
    found := false;
    var rest := aborted.Keys;
    while rest != {}
      invariant rest <= aborted.Keys
      invariant found ==> Later(aborted, generations, gen)
      invariant !found ==> forall w :: w in aborted && w !in rest ==> !Exceeds(generations, w, gen(aborted[w]))
      decreases rest
    {
      var w :| w in rest;
      var higher := AnyHigher(if w in generations then generations[w] else [], gen(aborted[w]));
      if higher {
        assert Exceeds(generations, w, gen(aborted[w]));
        found := true;
      }
      rest := rest - {w};
    }
  }

  method DeriveForcedRestart(es: seq<Event>, gen: string -> int) returns (out: Evidence)
    ensures out.interrupted <==> MeansInterrupted(es)
    ensures out.duplicateLaunch <==> MeansDuplicateLaunch(es)
    ensures out.duplicateSuccess <==> MeansDuplicateSuccess(es)
    ensures out.abortedSucceeded <==> MeansAbortedSucceeded(es)
    ensures out.laterResume <==> MeansLaterResume(es, gen)
    ensures AbortedOk(es, out.aborted) && out.reuse == CountReuse(es)
  {
    var t := EMPTY_TALLY;
    for i := 0 to |es|
      invariant t == TallyOf(es[..i], gen)
    {
      assert es[..i + 1][..i] == es[..i];
      t := AbsorbEvent(t, es[i], gen);
    }
    assert es[..|es|] == es;
    var launches := AnyAboveOne(t.launches);
    var successes := AnyDuplicateSuccess(t.successes, t.integrates);
    var later := AnyLater(t.aborted, t.generations, gen);
    var succeeded := AnyShared(t.cancelled, t.succeeded + t.integrated);
    EvidenceMeans(es, gen);
    out := Evidence(t.cancelled != {}, t.aborted, t.reuse, launches, successes, succeeded, later);
  }

  /** What the scans find in the tally is what the evidence means about the log. */
  lemma EvidenceMeans(es: seq<Event>, gen: string -> int)
    ensures var t := TallyOf(es, gen);
      && (t.cancelled != {} <==> MeansInterrupted(es))
      && (AboveOne(t.launches) <==> MeansDuplicateLaunch(es))
      && (DuplicateSuccess(t.successes, t.integrates) <==> MeansDuplicateSuccess(es))
      && (Shared(t.cancelled, t.succeeded + t.integrated) <==> MeansAbortedSucceeded(es))
      && (Later(t.aborted, t.generations, gen) <==> MeansLaterResume(es, gen))
      && AbortedOk(es, t.aborted) && t.reuse == CountReuse(es)
  {
    InterruptedMeans(es, gen);
    LaunchesMean(es, gen);
    var t := TallyOf(es, gen);
    if DuplicateSuccess(t.successes, t.integrates) {
      SuccessFound(es, gen);
    } else if MeansDuplicateSuccess(es) {
      SuccessMeant(es, gen);
    }
    if Shared(t.cancelled, t.succeeded + t.integrated) {
      SharedFound(es, gen);
    } else if MeansAbortedSucceeded(es) {
      SharedMeant(es, gen);
    }
    if Later(t.aborted, t.generations, gen) {
      LaterFound(es, gen);
    } else if MeansLaterResume(es, gen) {
      LaterMeant(es, gen);
    }
    TallyAborts(es, gen);
    TallyRest(es, gen);
  }

  lemma InterruptedMeans(es: seq<Event>, gen: string -> int)
    ensures TallyOf(es, gen).cancelled != {} <==> MeansInterrupted(es)
  {
    var cancelled := TallyOf(es, gen).cancelled;
    TallyAborts(es, gen);
    if cancelled != {} {
      var k :| k in cancelled;
      assert exists j :: 0 <= j < |es| && Aborts(es, j) && KeyOf(es[j]) == k;
    }
  }

  lemma LaunchesMean(es: seq<Event>, gen: string -> int)
    ensures AboveOne(TallyOf(es, gen).launches) <==> MeansDuplicateLaunch(es)
  {
    var launches := TallyOf(es, gen).launches;
    TallyCounts(es, gen);
    if a :| a in launches && launches[a] > 1 {
      CountMeans(es, LaunchOf(a));
    }
    if MeansDuplicateLaunch(es) {
      var i, j :| 0 <= i < j < |es| && IsLaunch(es[i]) && IsLaunch(es[j]) && es[i].attempt == es[j].attempt;
      var a := es[i].attempt;
      assert LaunchOf(a)(es[i]) && LaunchOf(a)(es[j]);
      CountMeans(es, LaunchOf(a));
      assert a in launches && launches[a] > 1;
    }
  }

  lemma SuccessFound(es: seq<Event>, gen: string -> int)
    requires DuplicateSuccess(TallyOf(es, gen).successes, TallyOf(es, gen).integrates)
    ensures MeansDuplicateSuccess(es)
  {
    var t := TallyOf(es, gen);
    var w :| w in t.successes && (t.successes[w] > 1 || (w in t.integrates && t.integrates[w] > 1));
    assert Count(es, SuccessOf(w)) == t.successes[w] > 0 && (w in t.integrates ==> Count(es, IntegrateOf(w)) == t.integrates[w]) by {
      TallyCounts(es, gen);
    }
    CountMeans(es, SuccessOf(w));
    CountMeans(es, IntegrateOf(w));
    var s :| 0 <= s < |es| && SuccessOf(w)(es[s]);
    if t.successes[w] > 1 {
      var i, j :| 0 <= i < j < |es| && SuccessOf(w)(es[i]) && SuccessOf(w)(es[j]);
      assert Repeats(es, s, i, j);
    } else {
      var i, j :| 0 <= i < j < |es| && IntegrateOf(w)(es[i]) && IntegrateOf(w)(es[j]);
      assert Repeats(es, s, i, j);
    }
  }

  lemma SuccessMeant(es: seq<Event>, gen: string -> int)
    requires MeansDuplicateSuccess(es)
    ensures DuplicateSuccess(TallyOf(es, gen).successes, TallyOf(es, gen).integrates)
  {
    var t := TallyOf(es, gen);
    var s, i, j :| Repeats(es, s, i, j);
    var w := es[s].item;
    assert SuccessOf(w)(es[s]);
    CountMeans(es, SuccessOf(w));
    CountMeans(es, IntegrateOf(w));
    TallyCounts(es, gen);
    assert w in t.successes;
    if IsSuccess(es[i]) && IsSuccess(es[j]) {
      assert SuccessOf(w)(es[i]) && SuccessOf(w)(es[j]);
    } else {
      assert IntegrateOf(w)(es[i]) && IntegrateOf(w)(es[j]);
    }
  }

  lemma SharedFound(es: seq<Event>, gen: string -> int)
    requires Shared(TallyOf(es, gen).cancelled, TallyOf(es, gen).succeeded + TallyOf(es, gen).integrated)
    ensures MeansAbortedSucceeded(es)
  {
    var t := TallyOf(es, gen);
    var k :| k in t.cancelled && k in t.succeeded + t.integrated;
    assert exists j :: 0 <= j < |es| && Aborts(es, j) && KeyOf(es[j]) == k by {
      TallyAborts(es, gen);
    }
    var j :| 0 <= j < |es| && Aborts(es, j) && KeyOf(es[j]) == k;
    assert exists l :: 0 <= l < |es| && (IsSuccess(es[l]) || IsIntegrate(es[l])) && KeyOf(es[l]) == k by {
      TallyKeys(es, gen);
    }
    var l :| 0 <= l < |es| && (IsSuccess(es[l]) || IsIntegrate(es[l])) && KeyOf(es[l]) == k;
    assert SucceedsAborted(es, j, l);
  }

  lemma SharedMeant(es: seq<Event>, gen: string -> int)
    requires MeansAbortedSucceeded(es)
    ensures Shared(TallyOf(es, gen).cancelled, TallyOf(es, gen).succeeded + TallyOf(es, gen).integrated)
  {
    var t := TallyOf(es, gen);
    var j, l :| SucceedsAborted(es, j, l);
    TallyAborts(es, gen);
    TallyKeys(es, gen);
    var k := KeyOf(es[j]);
    assert k in t.cancelled;
    assert es[l].attempt == es[j].attempt != "" && KeyOf(es[l]) == k;
    assert k in t.succeeded + t.integrated;
  }

  lemma LaterFound(es: seq<Event>, gen: string -> int)
    requires Later(TallyOf(es, gen).aborted, TallyOf(es, gen).generations, gen)
    ensures MeansLaterResume(es, gen)
  {
    var t := TallyOf(es, gen);
    var w :| w in t.aborted && Exceeds(t.generations, w, gen(t.aborted[w]));
    var g :| g in t.generations[w] && g > gen(t.aborted[w]);
    assert exists j: nat :: LastAbort(es, j, w, t.aborted[w]) by {
      TallyAborts(es, gen);
    }
    var j: nat :| LastAbort(es, j, w, t.aborted[w]);
    assert exists l :: 0 <= l < |es| && IsLaunch(es[l]) && es[l].item == w && gen(es[l].attempt) == g by {
      TallyRest(es, gen);
    }
    var l :| 0 <= l < |es| && IsLaunch(es[l]) && es[l].item == w && gen(es[l].attempt) == g;
    assert ResumesLater(es, gen, j, l);
  }

  lemma LaterMeant(es: seq<Event>, gen: string -> int)
    requires MeansLaterResume(es, gen)
    ensures Later(TallyOf(es, gen).aborted, TallyOf(es, gen).generations, gen)
  {
    var t := TallyOf(es, gen);
    var j, l :| ResumesLater(es, gen, j, l);
    var w := es[j].item;
    assert w in t.aborted && exists i: nat :: LastAbort(es, i, w, t.aborted[w]) by {
      TallyAborts(es, gen);
    }
    var i: nat :| LastAbort(es, i, w, t.aborted[w]);
    RecordedUnique(es, i, j);
    assert w in t.generations && gen(es[l].attempt) in t.generations[w] by {
      TallyRest(es, gen);
    }
    assert Exceeds(t.generations, w, gen(t.aborted[w]));
  }

  lemma RecordedUnique(es: seq<Event>, i: nat, j: nat)
    requires i < |es| && j < |es| && RecordedAbort(es, i) && RecordedAbort(es, j) && es[i].item == es[j].item
    ensures i == j
  {}
}

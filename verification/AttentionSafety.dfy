/** The evidence of an attention tells its whole life, and the project index is exact. */
module AttentionSafety {
  import opened Common
  import opened AttentionModel

  // ----- Evidence chains -----

  /** Follows the evidence of one attention from Open; None if a record does not
      continue where the one before it ended, or follows a resolved one. */
  function Follow(ev: seq<Evidence>, id: string): Option<State> {
    if ev == [] then Some(Open)
    else
      var soFar, last := Follow(ev[..|ev| - 1], id), ev[|ev| - 1];
      if last.attention != id then soFar
      else if soFar == Some(last.before) && last.before != Resolved then Some(last.after)
      else None
  }

  /** The evidence is a chain that ends in the state of the item, or in the state it
      was superseded from. */
  predicate Told(ev: seq<Evidence>, id: string, state: State) {
    Follow(ev, id) == Some(state) || (state == Superseded && Follow(ev, id).Some? && Follow(ev, id) != Some(Resolved))
  }

  predicate EvidenceOk(s: Store) {
    && (forall id :: id in s.items ==> Told(s.evidence, id, s.items[id].state))
    && (forall i :: 0 <= i < |s.evidence| ==> s.evidence[i].attention in s.items)
  }

  lemma {:induction false} UnknownHasNoEvidence(ev: seq<Evidence>, id: string)
    requires forall i :: 0 <= i < |ev| ==> ev[i].attention != id
    ensures Follow(ev, id) == Some(Open)
    decreases |ev|
  {
    if ev != [] {
      UnknownHasNoEvidence(ev[..|ev| - 1], id);
    }
  }

  /** The records of one attention, in order. */
  function EvidenceOf(ev: seq<Evidence>, id: string): seq<Evidence> {
    if ev == [] then []
    else if ev[|ev| - 1].attention == id then EvidenceOf(ev[..|ev| - 1], id) + [ev[|ev| - 1]]
    else EvidenceOf(ev[..|ev| - 1], id)
  }

  function EndOf(records: seq<Evidence>): State {
    if records == [] then Open else records[|records| - 1].after
  }

  predicate Links(records: seq<Evidence>, i: nat)
    requires i < |records|
  {
    records[i].before == (if i == 0 then Open else records[i - 1].after) && records[i].before != Resolved
  }

  /** Each record starts where the previous one ended, the first one from Open, and
      nothing follows a resolution. */
  predicate IsChain(records: seq<Evidence>) {
    forall i :: 0 <= i < |records| ==> Links(records, i)
  }

  lemma ChainNext(records: seq<Evidence>, e: Evidence)
    ensures IsChain(records + [e]) <==> IsChain(records) && e.before == EndOf(records) && e.before != Resolved
  {
    var next := records + [e];
    forall i | 0 <= i < |records| ensures Links(next, i) <==> Links(records, i) {}
    if IsChain(next) {
      assert Links(next, |records|);
      forall i | 0 <= i < |records| ensures Links(records, i) {
        assert Links(next, i);
      }
    }
  }

  /** Following the log succeeds exactly when the records are a chain, and gives its end. */
  lemma {:induction false} FollowIffChain(ev: seq<Evidence>, id: string)
    ensures Follow(ev, id) == if IsChain(EvidenceOf(ev, id)) then Some(EndOf(EvidenceOf(ev, id))) else None
    decreases |ev|
  {
    if ev != [] {
      FollowIffChain(ev[..|ev| - 1], id);
      ChainNext(EvidenceOf(ev[..|ev| - 1], id), ev[|ev| - 1]);
    }
  }

  /** For every attention: its records are a chain from Open to its state, or to the
      unresolved state it was superseded from. */
  lemma EvidenceIsChain(s: Store, id: string)
    requires EvidenceOk(s) && id in s.items
    ensures var records := EvidenceOf(s.evidence, id);
      && IsChain(records)
      && (EndOf(records) == s.items[id].state || (s.items[id].state == Superseded && EndOf(records) != Resolved))
  {
    FollowIffChain(s.evidence, id);
  }

  lemma OpenKeepsEvidence(s: Store, input: OpenInput, now: Time)
    requires EvidenceOk(s)
    ensures EvidenceOk(OpenStep(s, input, now))
  {
    var t := OpenStep(s, input, now);
    forall id | id in t.items ensures Told(t.evidence, id, t.items[id].state) {
      if id in s.items {
        assert Told(s.evidence, id, s.items[id].state);
      } else {
        UnknownHasNoEvidence(s.evidence, id);
      }
    }
  }

  lemma SubmitKeepsEvidence(s: Store, req: ActionRequest, now: Time)
    requires EvidenceOk(s)
    ensures EvidenceOk(SubmitStep(s, req, now))
  {}

  lemma SupersedeKeepsEvidence(s: Store, project: string, id: string)
    requires EvidenceOk(s)
    ensures EvidenceOk(SupersedeStep(s, project, id))
  {}

  lemma StepKeepsEvidence(s: Store, op: Op)
    requires EvidenceOk(s)
    ensures EvidenceOk(Step(s, op))
  {
    match op
    case OpenItem(input, now) => OpenKeepsEvidence(s, input, now);
    case Submit(req, now) => SubmitKeepsEvidence(s, req, now);
    case Supersede(project, id) => SupersedeKeepsEvidence(s, project, id);
  }

  // ----- The project index -----

  predicate ListOk(items: map<string, Item>, project: string, ids: seq<string>) {
    Distinct(ids) && forall id :: id in ids ==> id in items && items[id].project == project
  }

  /** Every item is listed exactly once, under its own project. */
  predicate IndexOk(s: Store) {
    && (forall p :: p in s.byProject ==> ListOk(s.items, p, s.byProject[p]))
    && (forall id :: id in s.items ==> id in Ids(s, s.items[id].project))
  }

  /** Changing states leaves the index exact. */
  lemma StatesKeepIndex(s: Store, t: Store)
    requires IndexOk(s) && t.byProject == s.byProject && t.items.Keys == s.items.Keys
    requires forall id :: id in s.items ==> t.items[id].project == s.items[id].project
    ensures IndexOk(t)
  {}

  lemma OpenKeepsIndex(s: Store, input: OpenInput, now: Time)
    requires IndexOk(s)
    ensures IndexOk(OpenStep(s, input, now))
  {
    var t := OpenStep(s, input, now);
    if t.items != s.items {
      var id, project := NewId(input, s.count + 1), input.project;
      assert ListOk(s.items, project, Ids(s, project));
      forall p | p in t.byProject ensures ListOk(t.items, p, t.byProject[p]) {
        assert p in s.byProject ==> ListOk(s.items, p, s.byProject[p]);
      }
      forall i | i in t.items ensures i in Ids(t, t.items[i].project) {
        if i == id {
          assert t.byProject[project][|Ids(s, project)|] == id;
        } else {
          assert i in Ids(s, s.items[i].project);
        }
      }
    }
  }

  lemma StepKeepsIndex(s: Store, op: Op)
    requires IndexOk(s)
    ensures IndexOk(Step(s, op))
  {
    if op.OpenItem? {
      OpenKeepsIndex(s, op.input, op.now);
    } else {
      StatesKeepIndex(s, Step(s, op));
    }
  }

  predicate StoreOk(s: Store) {
    EvidenceOk(s) && IndexOk(s)
  }

  lemma StepKeepsStore(s: Store, op: Op)
    requires StoreOk(s)
    ensures StoreOk(Step(s, op))
  {
    StepKeepsEvidence(s, op);
    StepKeepsIndex(s, op);
  }

  /** Both hold after any run. */
  lemma {:induction false} RunKeepsStore(s: Store, ops: seq<Op>)
    requires StoreOk(s)
    ensures StoreOk(Run(s, ops))
    decreases |ops|
  {
    if ops != [] {
      RunKeepsStore(s, ops[..|ops| - 1]);
      StepKeepsStore(Run(s, ops[..|ops| - 1]), ops[|ops| - 1]);
    }
  }

  // ----- Idempotent actions -----

  lemma {:induction false} IdemGrows(s: Store, ops: seq<Op>, k: string)
    requires k in s.idem
    ensures k in Run(s, ops).idem && Run(s, ops).idem[k] == s.idem[k]
    decreases |ops|
  {
    if ops != [] {
      IdemGrows(s, ops[..|ops| - 1], k);
    }
  }

  /** Once applied, a client's key changes nothing any more and is answered with the
      original result, whatever else happened and whatever is asked for. */
  lemma {:induction false} RepeatedActionChangesNothing(s: Store, req: ActionRequest, now: Time, ops: seq<Op>, again: ActionRequest, later: Time)
    requires SubmitAnswer(s, req, now).Applied? && again.client == req.client && again.key == req.key
    ensures var t := Run(SubmitStep(s, req, now), ops);
      && SubmitStep(t, again, later) == t
      && (!RequestInvalid(again) && !again.forbidden ==>
            SubmitAnswer(t, again, later) == Duplicate(SubmitAnswer(s, req, now).result))
  {
    IdemGrows(SubmitStep(s, req, now), ops, IdemKey(req.client, req.key));
  }

  /** Two different clients share a key exactly when one client name is the other one
      continued by a bar and a front part of its key. */
  lemma KeysCollideIff(c: string, k: string, d: string, l: string)
    requires |c| <= |d|
    ensures IdemKey(c, k) == IdemKey(d, l) <==>
      ((c == d && k == l) || exists m :: d == c + "|" + m && k == m + "|" + l)
  {
    var x, y := IdemKey(c, k), IdemKey(d, l);
    if x == y {
      assert c == x[..|c|] && d == y[..|d|];
      assert c == d[..|c|];
      if |c| == |d| {
        assert k == x[|c| + 1..] && l == y[|d| + 1..];
      } else {
        assert x[|c|] == '|' && y[|c|] == d[|c|];
        var m := d[|c| + 1..];
        assert d == c + "|" + m;
        assert k == x[|c| + 1..] == y[|c| + 1..];
        assert y[|c| + 1..] == m + "|" + l;
      }
    }
    if m :| d == c + "|" + m && k == m + "|" + l {
      assert c + "|" + (m + "|" + l) == c + "|" + m + "|" + l;
    }
  }

  /** What a client is told whose pair shares a stored key with an applied one, whoever it is
      and whatever it asks for: the other's result. */
  lemma SharedKeyAnswersOther(s: Store, req: ActionRequest, now: Time, again: ActionRequest, later: Time)
    requires SubmitAnswer(s, req, now).Applied? && IdemKey(again.client, again.key) == IdemKey(req.client, req.key)
    requires !RequestInvalid(again) && !again.forbidden
    ensures var t := SubmitStep(s, req, now);
      SubmitStep(t, again, later) == t && SubmitAnswer(t, again, later) == Duplicate(SubmitAnswer(s, req, now).result)
  {}

  function Sent(id: string, client: string, key: string, action: Action): ActionRequest {
    ActionRequest(id, "p", client, "session", 0, key, Some(action), "", "", "", false)
  }

  /** An item is opened, client "a" acknowledges it with the key "b|c", and client "a|b", who
      cancels with the key "c", is told that its action was the acknowledgement. */
  lemma CollidingClients(id: string, now: Time)
    requires id != ""
    ensures var s := OpenStep(EMPTY_STORE, OpenInput(id, "p", Some(NeedsHuman), "why", 0, [], None), now);
      var t := SubmitStep(s, Sent(id, "a", "b|c", Acknowledge), now);
      && SubmitAnswer(t, Sent(id, "a|b", "c", Cancel), now).Duplicate?
      && SubmitAnswer(t, Sent(id, "a|b", "c", Cancel), now).result.action == Acknowledge
      && SubmitStep(t, Sent(id, "a|b", "c", Cancel), now) == t
  {
    var s := OpenStep(EMPTY_STORE, OpenInput(id, "p", Some(NeedsHuman), "why", 0, [], None), now);
    var first, second := Sent(id, "a", "b|c", Acknowledge), Sent(id, "a|b", "c", Cancel);
    assert s.items == map[id := Item("p", 0, Open, DefaultActions(NeedsHuman), None, now)];
    assert Acknowledge in DefaultActions(NeedsHuman);
    assert SubmitAnswer(s, first, now).Applied?;
    assert IdemKey("a", "b|c") == "a|b|c" == IdemKey("a|b", "c");
    SharedKeyAnswersOther(s, first, now, second, now);
  }
}

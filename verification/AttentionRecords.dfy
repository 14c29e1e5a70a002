/** What the evidence says was really asked for and allowed: every record has the effect of its
    action, and goes back to a request that passed the checks of its item. */
module AttentionRecords {
  import opened Common
  import opened AttentionModel

  // ----- What an action leads to -----

  /** The effect, action by action. */
  predicate EffectFits(e: Evidence) {
    && (e.effect == AckDone <==> e.action == Acknowledge && e.before != Acknowledged)
    && (e.effect == AckNoop <==> e.action == Acknowledge && e.before == Acknowledged)
    && (e.effect == InputAccepted <==> e.action == BoundedInput)
    && (e.effect == PermissionApproved <==> e.action == PermissionAllow)
    && (e.effect == PermissionDenied <==> e.action == PermissionDeny)
    && (e.effect == CancelRequested <==> e.action == Cancel)
    && (e.effect == Detach <==> e.action == ExplicitDetach)
    && (e.effect == RetryFree <==> e.action == FreeRetry)
    && (e.effect == RecoverySelected <==> e.action == RecoverySelect)
  }

  /** Acknowledging leaves the item open to further actions, everything else resolves it. */
  predicate AfterFits(e: Evidence) {
    (e.after == Acknowledged <==> e.action == Acknowledge) && (e.after == Resolved <==> e.action != Acknowledge)
  }

  // ----- What a request has to bring -----

  /** A permission is decided with an authorization, that of the item if it names one; input and
      recovery are not blank. */
  predicate Authorised(a: Item, req: ActionRequest) {
    && (req.action == Some(PermissionAllow) || req.action == Some(PermissionDeny) ==>
          req.authorization != "" && (a.permission.None? || a.permission.value == "" || a.permission.value == req.authorization))
    && (req.action == Some(BoundedInput) ==> !Blank(req.input))
    && (req.action == Some(RecoverySelect) ==> !Blank(req.recovery))
  }

  /** The request is for this project, knows the current revision, and asks for an action that is
      offered and exists. */
  predicate Vouched(a: Item, req: ActionRequest) {
    && req.project == a.project && req.revision == a.revision && req.action.Some? && req.action.value in a.actions
    && req.action != Some(Unsupported) && Authorised(a, req)
  }

  predicate Complete(req: ActionRequest) {
    req.attention != "" && req.project != "" && req.client != "" && req.session != "" && req.key != "" && req.action.Some?
    && |req.input| <= 2048
  }

  /** A request is applied if and only if it is complete, carries nothing forbidden and a key not
      used before, and is vouched for by an item that is open or acknowledged. */
  lemma AppliedIff(s: Store, req: ActionRequest, now: Time)
    ensures SubmitAnswer(s, req, now).Applied? <==>
      && Complete(req) && !req.forbidden && req.client + "|" + req.key !in s.idem
      && req.attention in s.items && Vouched(s.items[req.attention], req)
      && (s.items[req.attention].state == Open || s.items[req.attention].state == Acknowledged)
  {}

  /** Why one that got as far as its item is rejected. */
  lemma RejectedAs(s: Store, req: ActionRequest, now: Time)
    requires Complete(req) && !req.forbidden && req.client + "|" + req.key !in s.idem
    ensures var out := SubmitAnswer(s, req, now);
      && (out == Rejected(NotFound) <==> req.attention !in s.items)
      && (req.attention in s.items ==>
            var a := s.items[req.attention];
            var here := a.project == req.project;
            var live := here && (a.state == Open || a.state == Acknowledged);
            && (out == Rejected(CrossProject) <==> !here)
            && (out == Rejected(AlreadyTerminal) <==> here && !live)
            && (out == Rejected(StaleRevision) <==> live && req.revision != a.revision)
            && (out == Rejected(Unauthorized) <==>
                  live && req.revision == a.revision && req.action.value in a.actions
                  && req.action.value in {PermissionAllow, PermissionDeny} && !Authorised(a, req))
            && (out == Rejected(InvalidRequest) <==>
                  live && req.revision == a.revision && req.action.value in a.actions
                  && req.action.value in {BoundedInput, RecoverySelect} && !Authorised(a, req)))
  {}

  /** What is written when a request is applied. */
  lemma AppliedRecords(s: Store, req: ActionRequest, now: Time)
    requires SubmitAnswer(s, req, now).Applied?
    ensures var t, result := SubmitStep(s, req, now), SubmitAnswer(s, req, now).result;
      var e := t.evidence[|t.evidence| - 1];
      && t.evidence == s.evidence + [e] && t.count == s.count + 1 && t.byProject == s.byProject
      && e.id == "ev_" + Decimal(t.count) && e.attention == req.attention && e.project == s.items[req.attention].project
      && e.action == req.action.value && e.client == req.client && e.session == req.session && e.key == req.key && e.at == now
      && e.before == s.items[req.attention].state && EffectFits(e) && AfterFits(e)
      && t.items == s.items[req.attention := s.items[req.attention].(state := e.after)]
      && result == ActionResult(req.attention, e.action, req.key, e.after, e.effect, e.id, now)
      && t.idem == s.idem[req.client + "|" + req.key := result]
  {}

  // ----- Over runs -----

  /** The record is that of the request. */
  predicate CameFrom(e: Evidence, op: Op, items: map<string, Item>) {
    && op.Submit? && op.req.attention == e.attention && op.req.action == Some(e.action) && op.req.client == e.client
    && op.req.session == e.session && op.req.key == e.key && op.now == e.at
    && e.attention in items && e.project == items[e.attention].project && Vouched(items[e.attention], op.req)
    && Complete(op.req) && !op.req.forbidden
  }

  ghost predicate Explained(e: Evidence, ops: seq<Op>, items: map<string, Item>) {
    EffectFits(e) && AfterFits(e) && exists i :: 0 <= i < |ops| && CameFrom(e, ops[i], items)
  }

  /** An item keeps what it was opened with. */
  predicate SameItem(a: Item, b: Item) {
    b.project == a.project && b.revision == a.revision && b.actions == a.actions && b.permission == a.permission
    && b.created == a.created
  }

  lemma StepKeepsItem(s: Store, op: Op, id: string)
    requires id in s.items
    ensures id in Step(s, op).items && SameItem(s.items[id], Step(s, op).items[id])
  {}

  lemma ExplainedLater(e: Evidence, ops: seq<Op>, s: Store, op: Op)
    requires Explained(e, ops, s.items)
    ensures Explained(e, ops + [op], Step(s, op).items)
  {
    var i :| 0 <= i < |ops| && CameFrom(e, ops[i], s.items);
    StepKeepsItem(s, op, e.attention);
    assert CameFrom(e, (ops + [op])[i], Step(s, op).items);
  }

  lemma SubmitExplains(s: Store, ops: seq<Op>, op: Op)
    requires op.Submit? && SubmitAnswer(s, op.req, op.now).Applied?
    ensures var t := Step(s, op);
      t.evidence == s.evidence + [RecordOf(s, op.req, op.now)] && Explained(RecordOf(s, op.req, op.now), ops + [op], t.items)
  {
    var t, e := Step(s, op), RecordOf(s, op.req, op.now);
    AppliedRecords(s, op.req, op.now);
    AppliedIff(s, op.req, op.now);
    StepKeepsItem(s, op, op.req.attention);
    assert t.evidence[|t.evidence| - 1] == e;
    assert CameFrom(e, (ops + [op])[|ops|], t.items);
  }

  /** Over every run from the empty store: each record has the effect of its action, leaves the
      state its action leads to, and goes back to a request of the run that was complete, not
      forbidden, for the item's project, revision and offered actions, and authorised. */
  lemma {:induction false} RunExplains(ops: seq<Op>)
    ensures forall e :: e in Run(EMPTY_STORE, ops).evidence ==> Explained(e, ops, Run(EMPTY_STORE, ops).items)
    decreases |ops|
  {
    if ops != [] {
      var init, op := ops[..|ops| - 1], ops[|ops| - 1];
      var s := Run(EMPTY_STORE, init);
      RunExplains(init);
      assert init + [op] == ops;
      forall e | e in Run(EMPTY_STORE, ops).evidence ensures Explained(e, ops, Run(EMPTY_STORE, ops).items) {
        if e in s.evidence {
          ExplainedLater(e, init, s, op);
        } else {
          SubmitExplains(s, init, op);
        }
      }
    }
  }

  // ----- Opening and superseding -----

  /** What is offered if an item is opened without a list of actions. */
  lemma OfferedIff(k: Kind, a: Action)
    ensures a in DefaultActions(k) <==>
      || a == Acknowledge || a == Cancel
      || ((a == PermissionAllow || a == PermissionDeny) && k == Permission)
      || (a == RecoverySelect && k == Recovery)
      || (a == FreeRetry && k in {Recovery, NeedsHuman, DeliveryBlock})
      || (a == BoundedInput && k in {InputRequired, NeedsHuman, DeliveryBlock})
      || (a == ExplicitDetach && k in {NeedsHuman, DeliveryBlock})
  {}

  /** A well-formed input moves the counter; it opens an item with what it says, unless the
      identifier is taken. */
  lemma OpenRecords(s: Store, input: OpenInput, now: Time)
    requires input.project != "" && input.kind.Some? && 0 < |input.reason| <= 512
    ensures var t, id := OpenStep(s, input, now), if input.id == "" then "att_" + Decimal(s.count + 1) else input.id;
      && t.count == s.count + 1 && t.evidence == s.evidence && t.idem == s.idem
      && (id in s.items ==> t.items == s.items && t.byProject == s.byProject)
      && (id !in s.items ==>
            && t.items == s.items[id := t.items[id]] && t.items[id].state == Open && t.items[id].project == input.project
            && t.items[id].revision == input.revision && t.items[id].permission == input.permission && t.items[id].created == now
            && t.items[id].actions == (if input.actions == [] then DefaultActions(input.kind.value) else input.actions))
  {}

  lemma OpenRejects(s: Store, input: OpenInput, now: Time)
    requires input.project == "" || input.kind.None? || input.reason == "" || |input.reason| > 512
    ensures OpenInvalid(input) && OpenStep(s, input, now) == s
  {}

  /** An item of the project that is open or acknowledged is superseded, and nothing else changes. */
  lemma SupersedeRecords(s: Store, project: string, id: string)
    ensures var t := SupersedeStep(s, project, id);
      var may := id in s.items && s.items[id].project == project && (s.items[id].state == Open || s.items[id].state == Acknowledged);
      && (may ==> t == s.(items := s.items[id := s.items[id].(state := Superseded)]) && SupersedeFault(s, project, id).None?)
      && (!may ==> t == s && SupersedeFault(s, project, id).Some?)
      && (SupersedeFault(s, project, id) == Some(NotFound) <==> id !in s.items)
      && (SupersedeFault(s, project, id) == Some(CrossProject) <==> id in s.items && s.items[id].project != project)
  {}
}

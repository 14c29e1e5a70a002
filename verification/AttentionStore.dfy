/** The attention store as it works: maps, a log and a counter, updated in place. */
module AttentionStore {
  import opened Common
  import opened AttentionModel
  import opened AttentionSafety

  predicate Listed(items: map<string, Item>, project: string, id: string) {
    id in items && items[id].project == project && !Terminal(items[id].state)
  }

  predicate ByAge(items: map<string, Item>, ids: seq<string>) {
    forall i, j :: 0 <= i < j < |ids| && ids[i] in items && ids[j] in items ==>
      items[ids[i]].created <= items[ids[j]].created
  }

  function Insert(items: map<string, Item>, ids: seq<string>, id: string): (r: seq<string>)
    requires id in items && forall i :: i in ids ==> i in items
    ensures forall i :: i in r <==> i in ids || i == id
    ensures |r| == |ids| + 1
  {
    if ids == [] || items[ids[|ids| - 1]].created <= items[id].created then ids + [id]
    else
      assert forall i :: i in ids <==> i in ids[..|ids| - 1] || i == ids[|ids| - 1];
      Insert(items, ids[..|ids| - 1], id) + [ids[|ids| - 1]]
  }

  lemma {:induction false} InsertKeepsOrder(items: map<string, Item>, ids: seq<string>, id: string)
    requires id in items && (forall i :: i in ids ==> i in items) && ByAge(items, ids)
    ensures ByAge(items, Insert(items, ids, id))
    decreases |ids|
  {
    if ids == [] {
    } else if items[ids[|ids| - 1]].created <= items[id].created {
      forall i | 0 <= i < |ids| ensures items[ids[i]].created <= items[id].created {
        assert ids[i] in ids;
      }
    } else {
      var init, last := ids[..|ids| - 1], ids[|ids| - 1];
      InsertKeepsOrder(items, init, id);
      var r := Insert(items, init, id);
      forall i | 0 <= i < |r| ensures r[i] in items && items[r[i]].created <= items[last].created {
        assert r[i] in r;
        if r[i] != id {
          var j :| 0 <= j < |init| && init[j] == r[i];
          assert ids[j] == r[i] && ids[j] in ids;
        }
      }
    }
  }

  lemma {:induction false} InsertKeepsDistinct(items: map<string, Item>, ids: seq<string>, id: string)
    requires id in items && (forall i :: i in ids ==> i in items) && Distinct(ids) && id !in ids
    ensures Distinct(Insert(items, ids, id))
    decreases |ids|
  {
    if ids != [] && items[ids[|ids| - 1]].created > items[id].created {
      var init, last := ids[..|ids| - 1], ids[|ids| - 1];
      InsertKeepsDistinct(items, init, id);
      var r := Insert(items, init, id);
      forall i | 0 <= i < |r| ensures r[i] != last {
        assert r[i] in r && last in ids;
      }
    }
  }

  class Attentions {
    var items: map<string, Item>
    var byProject: map<string, seq<string>>
    var evidence: seq<Evidence>
    var idem: map<string, ActionResult>
    var count: nat

    ghost function Contents(): Store
      reads this
    {
      Store(items, byProject, evidence, idem, count)
    }

    ghost predicate Valid()
      reads this
    {
      StoreOk(Contents())
    }

    constructor ()
      ensures Valid() && Contents() == EMPTY_STORE
    {
      items, byProject, evidence, idem, count := map[], map[], [], map[], 0;
    }

    method Register(id: string, input: OpenInput, now: Time)
      requires input.kind.Some?
      modifies this`items, this`byProject
      ensures items == old(items)[id := NewItem(input, now)]
      ensures byProject == old(byProject)[input.project := Ids(old(Contents()), input.project) + [id]]
    {
      items := items[id := NewItem(input, now)];
      byProject := byProject[input.project := (if input.project in byProject then byProject[input.project] else []) + [id]];
    }

    method OpenAttention(input: OpenInput, now: Time) returns (r: Option<Error>)
      requires Valid()
      modifies this
      ensures Valid() && Contents() == OpenStep(old(Contents()), input, now)
      ensures r == if OpenInvalid(input) then Some(InvalidRequest)
                   else if NewId(input, old(count) + 1) in old(items) then Some(Conflict) else None
    {
      StepKeepsStore(Contents(), OpenItem(input, now));
      if OpenInvalid(input) {
        return Some(InvalidRequest);
      }
      r := Enter(input, now);
    }

    /** A well-formed input: the counter moves, and the item is entered if its identifier is free. */
    method Enter(input: OpenInput, now: Time) returns (r: Option<Error>)
      requires !OpenInvalid(input)
      modifies this
      ensures Contents() == OpenStep(old(Contents()), input, now)
      ensures r == if NewId(input, old(count) + 1) in old(items) then Some(Conflict) else None
    {
      count := count + 1;
      var id := input.id;
      if id == "" {
        id := "att_" + Decimal(count);
      }
      if id in items {
        return Some(Conflict);
      }
      Register(id, input, now);
      r := None;
    }

    /** Evidence first, then its effect. */
    method Apply(req: ActionRequest, now: Time) returns (result: ActionResult)
      requires SubmitAnswer(Contents(), req, now).Applied?
      modifies this
      ensures Contents() == SubmitStep(old(Contents()), req, now)
      ensures Applied(result) == SubmitAnswer(old(Contents()), req, now)
    {
      var a, action := items[req.attention], req.action.value;
      var (after, effect) := Transition(a.state, action).value;
      count := count + 1;
      var evidenceId := "ev_" + Decimal(count);
      evidence := evidence + [Evidence(evidenceId, req.attention, a.project, action, req.client, req.session,
                                       req.key, a.state, after, effect, now)];
      items := items[req.attention := a.(state := after)];
      result := ActionResult(req.attention, action, req.key, after, effect, evidenceId, now);
      idem := idem[IdemKey(req.client, req.key) := result];
    }

    method Submit(req: ActionRequest, now: Time) returns (answer: Answer)
      requires Valid()
      modifies this
      ensures Valid() && Contents() == SubmitStep(old(Contents()), req, now)
      ensures answer == SubmitAnswer(old(Contents()), req, now)
    {
      StepKeepsStore(Contents(), AttentionModel.Submit(req, now));
      if RequestInvalid(req) {
        return Rejected(InvalidRequest);
      }
      if req.forbidden {
        return Rejected(Forbidden);
      }
      if IdemKey(req.client, req.key) in idem {
        return Duplicate(idem[IdemKey(req.client, req.key)]);
      }
      var fault := CheckItem(req);
      if fault.Some? {
        return Rejected(fault.value);
      }
      var result := Apply(req, now);
      answer := Applied(result);
    }

    method CheckItem(req: ActionRequest) returns (fault: Option<Error>)
      requires req.action.Some?
      ensures fault == ItemFault(Contents(), req)
    {
      if req.attention !in items {
        return Some(NotFound);
      }
      var a := items[req.attention];
      if a.project != req.project {
        return Some(CrossProject);
      }
      if Terminal(a.state) {
        return Some(AlreadyTerminal);
      }
      if req.revision != a.revision {
        return Some(StaleRevision);
      }
      var allowed := ActionAllowed(a.actions, req.action.value);
      if !allowed {
        return Some(UnsupportedAction);
      }
      if AuthorizeFault(a, req).Some? {
        return AuthorizeFault(a, req);
      }
      fault := if Transition(a.state, req.action.value).None? then Some(UnsupportedAction) else None;
    }

    static method ActionAllowed(allowed: seq<Action>, action: Action) returns (ok: bool)
      ensures ok <==> action in allowed
    {
      for i := 0 to |allowed|
        invariant action !in allowed[..i]
      {
        if allowed[i] == action {
          return true;
        }
      }
      assert allowed[..|allowed|] == allowed;
      ok := false;
    }

    method Supersede(project: string, id: string) returns (fault: Option<Error>)
      requires Valid()
      modifies this
      ensures Valid() && Contents() == SupersedeStep(old(Contents()), project, id)
      ensures fault == SupersedeFault(old(Contents()), project, id)
    {
      StepKeepsStore(Contents(), AttentionModel.Supersede(project, id));
      if id !in items {
        return Some(NotFound);
      }
      if items[id].project != project {
        return Some(CrossProject);
      }
      if Terminal(items[id].state) {
        return Some(AlreadyTerminal);
      }
      items := items[id := items[id].(state := Superseded)];
      fault := None;
    }

    /** The items of a list that are not terminal, each once, oldest first. */
    static method SelectOpen(items: map<string, Item>, all: seq<string>) returns (ids: seq<string>)
      requires Distinct(all) && forall id :: id in all ==> id in items
      ensures forall id :: id in ids <==> id in all && !Terminal(items[id].state)
      ensures Distinct(ids) && ByAge(items, ids)
    {
      ids := [];
      for i := 0 to |all|
        invariant forall id :: id in ids <==> id in all[..i] && !Terminal(items[id].state)
        invariant Distinct(ids) && ByAge(items, ids)
      {
        assert all[..i + 1] == all[..i] + [all[i]];
        assert all[i] in all && all[i] !in all[..i];
        if items[all[i]].state == Open || items[all[i]].state == Acknowledged {
          InsertKeepsOrder(items, ids, all[i]);
          InsertKeepsDistinct(items, ids, all[i]);
          ids := Insert(items, ids, all[i]);
        }
      }
      assert all[..|all|] == all;
    }

    /** Exactly the project's items that are not terminal, each once, oldest first. */
    method ListOpen(project: string) returns (ids: seq<string>)
      requires Valid()
      ensures forall id :: id in ids <==> Listed(items, project, id)
      ensures Distinct(ids) && ByAge(items, ids)
    {
      var all := if project in byProject then byProject[project] else [];
      assert ListOk(items, project, all);
      ids := SelectOpen(items, all);
      forall id | Listed(items, project, id) ensures id in all {
        assert id in Ids(Contents(), items[id].project);
      }
    }

    method Collect(id: string) returns (out: seq<Evidence>)
      ensures out == EvidenceOf(evidence, id)
    {
      out := [];
      for i := 0 to |evidence|
        invariant out == EvidenceOf(evidence[..i], id)
      {
        assert evidence[..i + 1][..i] == evidence[..i];
        if evidence[i].attention == id {
          out := out + [evidence[i]];
        }
      }
      assert evidence[..|evidence|] == evidence;
    }

    /** The evidence of one attention: a chain. */
    method EvidenceFor(project: string, id: string) returns (fault: Option<Error>, records: seq<Evidence>)
      requires Valid()
      ensures fault == if id !in items then Some(NotFound)
                       else if items[id].project != project then Some(CrossProject) else None
      ensures records == if fault.None? then EvidenceOf(evidence, id) else []
      ensures IsChain(records)
    {
      if id !in items {
        return Some(NotFound), [];
      }
      if items[id].project != project {
        return Some(CrossProject), [];
      }
      EvidenceIsChain(Contents(), id);
      records := Collect(id);
      fault := None;
    }

    /** Any run of the store: everything proved of runs holds of what it leaves. */
    method PerformAll(ops: seq<Op>)
      requires Valid()
      modifies this
      ensures Valid() && Contents() == Run(old(Contents()), ops)
    {
      for i := 0 to |ops|
        invariant Valid() && Contents() == Run(old(Contents()), ops[..i])
      {
        assert ops[..i + 1][..i] == ops[..i];
        match ops[i] {
          case OpenItem(input, now) =>
            var _ := OpenAttention(input, now);
          case Submit(req, now) =>
            var _ := Submit(req, now);
          case Supersede(project, id) =>
            var _ := Supersede(project, id);
        }
      }
      assert ops[..|ops|] == ops;
    }
  }
}

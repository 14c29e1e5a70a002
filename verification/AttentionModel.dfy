/** Operator attention: items that are opened, acted upon and superseded, with an
    append-only evidence log and an index by project. */
module AttentionModel {
  import opened Common

  type Time = int

  const MAX_REASON: nat := 512
  const MAX_INPUT: nat := 2048

  datatype State = Open | Acknowledged | Resolved | Superseded

  datatype Kind = NeedsHuman | Permission | Recovery | DeliveryBlock | InputRequired

  datatype Action =
    | Acknowledge | BoundedInput | PermissionAllow | PermissionDeny | Cancel
    | ExplicitDetach | FreeRetry | RecoverySelect | Unsupported

  /** `permission` is the permission name in the item's evidence, if there is one. */
  datatype Item = Item(
    project: string, revision: int, state: State, actions: seq<Action>, permission: Option<string>, created: Time)

  datatype OpenInput = OpenInput(
    id: string, project: string, kind: Option<Kind>, reason: string, revision: int,
    actions: seq<Action>, permission: Option<string>)

  /** `forbidden` tells that the request carries a forbidden control-plane mutation. */
  datatype ActionRequest = ActionRequest(
    attention: string, project: string, client: string, session: string, revision: int, key: string,
    action: Option<Action>, authorization: string, input: string, recovery: string, forbidden: bool)

  /** What an action asks the runtime to do. */
  datatype Effect =
    | AckNoop | AckDone | InputAccepted | PermissionApproved | PermissionDenied | CancelRequested
    | Detach | RetryFree | RecoverySelected

  datatype Evidence = Evidence(
    id: string, attention: string, project: string, action: Action, client: string, session: string,
    key: string, before: State, after: State, effect: Effect, at: Time)

  datatype ActionResult = ActionResult(
    attention: string, action: Action, key: string, state: State, effect: Effect, evidenceId: string, at: Time)

  datatype Error =
    | InvalidRequest | Forbidden | NotFound | CrossProject | AlreadyTerminal | StaleRevision
    | UnsupportedAction | Unauthorized | Conflict

  datatype Store = Store(
    items: map<string, Item>, byProject: map<string, seq<string>>, evidence: seq<Evidence>,
    idem: map<string, ActionResult>, count: nat)

  const EMPTY_STORE := Store(map[], map[], [], map[], 0)

  predicate Terminal(s: State) {
    s == Resolved || s == Superseded
  }

  // ----- Open -----

  function DefaultActions(k: Kind): seq<Action> {
    match k
    case Permission => [Acknowledge, PermissionAllow, PermissionDeny, Cancel]
    case Recovery => [Acknowledge, RecoverySelect, Cancel, FreeRetry]
    case InputRequired => [Acknowledge, BoundedInput, Cancel]
    case _ => [Acknowledge, Cancel, ExplicitDetach, FreeRetry, BoundedInput]
  }

  predicate OpenInvalid(input: OpenInput) {
    input.project == "" || input.kind.None? || input.reason == "" || |input.reason| > MAX_REASON
  }

  function NewId(input: OpenInput, count: nat): string {
    if input.id == "" then "att_" + Decimal(count) else input.id
  }

  function NewItem(input: OpenInput, now: Time): Item
    requires input.kind.Some?
  {
    Item(input.project, input.revision, Open,
         if input.actions == [] then DefaultActions(input.kind.value) else input.actions, input.permission, now)
  }

  function Ids(s: Store, project: string): seq<string> {
    if project in s.byProject then s.byProject[project] else []
  }

  /** The counter moves even when the identifier is taken. */
  function OpenStep(s: Store, input: OpenInput, now: Time): Store {
    if OpenInvalid(input) then s
    else
      var t := s.(count := s.count + 1);
      var id := NewId(input, t.count);
      if id in t.items then t
      else t.(items := t.items[id := NewItem(input, now)],
              byProject := t.byProject[input.project := Ids(t, input.project) + [id]])
  }

  // ----- Submit -----

  function IdemKey(client: string, key: string): string {
    client + "|" + key
  }

  predicate RequestInvalid(req: ActionRequest) {
    req.attention == "" || req.project == "" || req.client == "" || req.session == ""
    || req.key == "" || req.action.None? || |req.input| > MAX_INPUT
  }

  function AuthorizeFault(a: Item, req: ActionRequest): Option<Error>
    requires req.action.Some?
  {
    match req.action.value
    case PermissionAllow => PermissionFault(a, req)
    case PermissionDeny => PermissionFault(a, req)
    case BoundedInput => if Blank(req.input) then Some(InvalidRequest) else None
    case RecoverySelect => if Blank(req.recovery) then Some(InvalidRequest) else None
    case _ => None
  }

  function PermissionFault(a: Item, req: ActionRequest): Option<Error> {
    if req.authorization == "" then Some(Unauthorized)
    else if a.permission.Some? && a.permission.value != "" && req.authorization != a.permission.value
    then Some(Unauthorized)
    else None
  }

  /** The state an action leads to and its effect; None if there is no such action. */
  function Transition(state: State, action: Action): Option<(State, Effect)> {
    match action
    case Acknowledge => Some((Acknowledged, if state == Acknowledged then AckNoop else AckDone))
    case BoundedInput => Some((Resolved, InputAccepted))
    case PermissionAllow => Some((Resolved, PermissionApproved))
    case PermissionDeny => Some((Resolved, PermissionDenied))
    case Cancel => Some((Resolved, CancelRequested))
    case ExplicitDetach => Some((Resolved, Detach))
    case FreeRetry => Some((Resolved, RetryFree))
    case RecoverySelect => Some((Resolved, RecoverySelected))
    case Unsupported => None
  }

  /** The checks on the item, in the order they are made. */
  function ItemFault(s: Store, req: ActionRequest): Option<Error>
    requires req.action.Some?
  {
    if req.attention !in s.items then Some(NotFound)
    else
      var a := s.items[req.attention];
      if a.project != req.project then Some(CrossProject)
      else if Terminal(a.state) then Some(AlreadyTerminal)
      else if req.revision != a.revision then Some(StaleRevision)
      else if req.action.value !in a.actions then Some(UnsupportedAction)
      else if AuthorizeFault(a, req).Some? then AuthorizeFault(a, req)
      else if Transition(a.state, req.action.value).None? then Some(UnsupportedAction)
      else None
  }

  datatype Answer = Applied(result: ActionResult) | Duplicate(result: ActionResult) | Rejected(error: Error)

  function SubmitAnswer(s: Store, req: ActionRequest, now: Time): Answer {
    if RequestInvalid(req) then Rejected(InvalidRequest)
    else if req.forbidden then Rejected(Forbidden)
    else if IdemKey(req.client, req.key) in s.idem then Duplicate(s.idem[IdemKey(req.client, req.key)])
    else if ItemFault(s, req).Some? then Rejected(ItemFault(s, req).value)
    else
      var (after, effect) := Transition(s.items[req.attention].state, req.action.value).value;
      Applied(ActionResult(req.attention, req.action.value, req.key, after, effect, "ev_" + Decimal(s.count + 1), now))
  }

  function RecordOf(s: Store, req: ActionRequest, now: Time): Evidence
    requires SubmitAnswer(s, req, now).Applied?
  {
    var a := s.items[req.attention];
    var (after, effect) := Transition(a.state, req.action.value).value;
    Evidence("ev_" + Decimal(s.count + 1), req.attention, a.project, req.action.value, req.client, req.session,
             req.key, a.state, after, effect, now)
  }

  function SubmitStep(s: Store, req: ActionRequest, now: Time): Store {
    var answer := SubmitAnswer(s, req, now);
    if !answer.Applied? then s
    else
      Store(s.items[req.attention := s.items[req.attention].(state := answer.result.state)], s.byProject,
            s.evidence + [RecordOf(s, req, now)], s.idem[IdemKey(req.client, req.key) := answer.result], s.count + 1)
  }

  // ----- Supersede -----

  function SupersedeFault(s: Store, project: string, id: string): Option<Error> {
    if id !in s.items then Some(NotFound)
    else if s.items[id].project != project then Some(CrossProject)
    else if Terminal(s.items[id].state) then Some(AlreadyTerminal)
    else None
  }

  function SupersedeStep(s: Store, project: string, id: string): Store {
    if SupersedeFault(s, project, id).Some? then s
    else s.(items := s.items[id := s.items[id].(state := Superseded)])
  }

  // ----- Runs -----

  datatype Op =
    | OpenItem(input: OpenInput, now: Time)
    | Submit(req: ActionRequest, now: Time)
    | Supersede(project: string, id: string)

  function Step(s: Store, op: Op): Store {
    match op
    case OpenItem(input, now) => OpenStep(s, input, now)
    case Submit(req, now) => SubmitStep(s, req, now)
    case Supersede(project, id) => SupersedeStep(s, project, id)
  }

  function Run(s: Store, ops: seq<Op>): Store
    decreases |ops|
  {
    if ops == [] then s else Step(Run(s, ops[..|ops| - 1]), ops[|ops| - 1])
  }
}

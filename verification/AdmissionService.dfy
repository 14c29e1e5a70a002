/** The admission service over its table. Each method is one write transaction; a
    method that reports an error leaves the table as it was. */
module AdmissionService {
  import opened Common
  import opened AdmissionModel
  import opened AdmissionSafety

  class Service {
    var rows: Rows
    var enforced: Enforced
    const budget: View

    ghost function Contents(): Store
      reads this
    {
      Store(rows, enforced)
    }

    ghost predicate Valid()
      reads this
    {
      KeysUnique(rows)
    }

    /** Within budget in every dimension, and no row holds a negative amount. */
    ghost predicate Within()
      reads this
    {
      Safe(budget, Contents())
    }

    constructor (budget: View)
      ensures Valid() && Contents() == Store(map[], {}) && this.budget == budget
      ensures AtMost(ZERO, budget) ==> Within()
    {
      this.budget := budget;
      rows, enforced := map[], {};
    }

    /** The running totals of all rows in one state. */
    method SumState(table: Rows, state: State) returns (v: View)
      ensures v == Sum(table, {state})
    {
      v := ZERO;
      var rest := table;
      while rest != map[]
        invariant Sum(table, {state}) == Add(v, Sum(rest, {state}))
        decreases |rest|
      {
        var id :| id in rest;
        RowSplit(rest, {state}, id);
        if rest[id].state == state {
          AddAssociates(v, Weight(rest[id]), Sum(rest - {id}, {state}));
          v := Add(v, Weight(rest[id]));
        } else {
          AddAssociates(v, ZERO, Sum(rest - {id}, {state}));
          AddZero(v);
        }
        rest := rest - {id};
      }
      AddZero(v);
    }

    /** Moves overdue active rows to expired or attention-required; None if a probe fails. */
    method RefreshExpired(now: Time, probe: Probe) returns (current: Option<Rows>)
      ensures current == if ProbeFails(rows, now, probe) then None else Some(Refresh(rows, now, probe))
    {
      var out := rows;
      var rest := set id | id in rows && Overdue(rows[id], now);
      while rest != {}
        invariant rest <= rows.Keys && out.Keys == rows.Keys
        invariant forall id :: id in rest ==> Overdue(rows[id], now)
        invariant forall id :: id in rows && Overdue(rows[id], now) && id !in rest ==> probe(id, rows[id]) != ProbeError
        invariant forall id :: id in rows ==>
          out[id] == if id in rest then rows[id] else RefreshRow(id, rows[id], now, probe)
        decreases rest
      {
        var id :| id in rest;
        var r := out[id];
        var live := probe(id, r);
        if live == ProbeError {
          return None;
        }
        if live == Unknown || live == Live {
          r := r.(state := Attention);
          r := r.(reason := if live == Unknown then "lease_expired_liveness_unknown"
                            else "lease_expired_process_possibly_live");
        } else {
          r := r.(state := Expired, reason := "");
        }
        out := out[id := r];
        rest := rest - {id};
      }
      assert out == Refresh(rows, now, probe);
      current := Some(out);
    }

    /** Active usage plus what attention-required rows still block. */
    method CountedTotals(table: Rows) returns (v: View)
      ensures v == Sum(table, COUNTED)
    {
      var reserved := SumState(table, Active);
      var attention := SumState(table, Attention);
      SumOfBoth(table);
      v := Add(reserved, attention);
    }

    /** The claim on refreshed rows; `after` is None when the transaction fails. */
    method ClaimAgainst(current: Rows, req: Request, id: string, now: Time)
      returns (out: Decision, after: Option<Rows>)
      requires req.role.Some?
      ensures after == ClaimOn(budget, current, req, id, now)
      ensures AnswersOn(budget, current, req, id, out)
    {
      if req.key != "" {
        if i :| i in current && current[i].key == req.key && current[i].state == Active {
          return Replayed(i), Some(current);
        }
        if i :| i in current && current[i].key == req.key && current[i].state == Attention {
          return NeedsAttention(i), None;
        }
      }
      var used := CountedTotals(current);
      var reasons := CheckBudget(used, req);
      if reasons != [] {
        return Denied(reasons), Some(current);
      }
      if id in current || KeyTaken(current, StoredKey(req, id)) {
        return Faulty, None;
      }
      out, after := Admitted(id), Some(current[id := NewRow(req, id, now)]);
    }

    method CheckBudget(used: View, req: Request) returns (reasons: seq<Reason>)
      requires req.role.Some?
      ensures reasons == Reasons(budget, used, req)
    {
      reasons := SlotReasons(budget, used, req.role.value);
      var needed := req.processes;
      if needed <= 0 {
        needed := 1;
      }
      if used.processes + needed > budget.processes {
        reasons := reasons + [ProcessBudget];
      }
      if req.rss > 0 && used.rss + req.rss > budget.rss {
        reasons := reasons + [RssBudget];
      }
      if req.cpu > 0.0 && used.cpu + req.cpu > budget.cpu + TOLERANCE {
        reasons := reasons + [CpuBudget];
      }
    }

    method Claim(req: Request, id: string, now: Time, probe: Probe) returns (out: Decision)
      requires Valid()
      modifies this`rows
      ensures old(Within()) && req.rss >= 0 && req.cpu >= 0.0 ==> Within()
      ensures Valid() && Contents() == Step(budget, old(Contents()), AdmissionModel.Claim(req, id, now, probe))
      ensures ClaimAnswers(budget, old(rows), req, id, now, probe, out)
    {
      ghost var op := AdmissionModel.Claim(req, id, now, probe);
      if Within() && req.rss >= 0 && req.cpu >= 0.0 {
        StepStaysSafe(budget, Contents(), op);
      }
      StepKeepsKeysUnique(budget, Contents(), op);
      if !RequestValid(req) {
        return Invalid;
      }
      var refreshed := RefreshExpired(now, probe);
      if refreshed.None? {
        return Faulty;
      }
      var after;
      out, after := ClaimAgainst(refreshed.value, req, id, now);
      if after.Some? {
        rows := after.value;
      }
    }

    method RenewAgainst(current: Rows, id: string, generation: int, ttl: int, now: Time)
      returns (fault: Option<Error>, after: Rows)
      ensures fault == RenewFaultOn(current, id, generation)
      ensures fault.None? ==> after == current[id := Renewed(current[id], ttl, now)]
    {
      after := current;
      if id !in current {
        return Some(NotFound), after;
      }
      var r := current[id];
      if r.generation != generation {
        return Some(GenerationMismatch), after;
      }
      if r.state == Attention {
        return Some(AttentionRequired), after;
      }
      if r.state != Active {
        return Some(GenerationMismatch), after;
      }
      r := r.(generation := r.generation + 1);
      r := r.(lease := now + if ttl <= 0 then DEFAULT_LEASE else ttl);
      fault, after := None, current[id := r];
    }

    method Renew(id: string, generation: int, ttl: int, now: Time, probe: Probe) returns (fault: Option<Error>)
      requires Valid()
      modifies this`rows
      ensures old(Within()) ==> Within()
      ensures Valid() && Contents() == Step(budget, old(Contents()), AdmissionModel.Renew(id, generation, ttl, now, probe))
      ensures fault == RenewFault(old(rows), id, generation, now, probe)
    {
      ghost var op := AdmissionModel.Renew(id, generation, ttl, now, probe);
      if Within() {
        StepStaysSafe(budget, Contents(), op);
      }
      StepKeepsKeysUnique(budget, Contents(), op);
      var refreshed := RefreshExpired(now, probe);
      if refreshed.None? {
        return Some(ProbeFailed);
      }
      var after;
      fault, after := RenewAgainst(refreshed.value, id, generation, ttl, now);
      if fault.None? {
        rows := after;
      }
    }

    method Release(id: string, generation: int) returns (fault: Option<Error>)
      requires Valid()
      modifies this`rows
      ensures old(Within()) ==> Within()
      ensures Valid() && Contents() == Step(budget, old(Contents()), AdmissionModel.Release(id, generation))
      ensures fault == ReleaseFault(old(rows), id, generation)
    {
      ghost var op := AdmissionModel.Release(id, generation);
      if Within() {
        StepStaysSafe(budget, Contents(), op);
      }
      StepKeepsKeysUnique(budget, Contents(), op);
      if id !in rows {
        return Some(NotFound);
      }
      if rows[id].state == Released {
        return None;
      }
      if generation != 0 && rows[id].generation != generation {
        return Some(GenerationMismatch);
      }
      rows := rows[id := rows[id].(state := Released)];
      fault := None;
    }

    /** Works on a copy of the row: what an error path writes is rolled back. */
    method ResolveAttention(id: string, release: bool, probe: Probe) returns (fault: Option<Error>)
      requires Valid()
      modifies this`rows
      ensures old(Within()) ==> Within()
      ensures Valid() && Contents() == Step(budget, old(Contents()), Resolve(id, release, probe))
      ensures fault == ResolveFault(old(rows), id, release, probe)
    {
      ghost var op := Resolve(id, release, probe);
      if Within() {
        StepStaysSafe(budget, Contents(), op);
      }
      StepKeepsKeysUnique(budget, Contents(), op);
      if id !in rows {
        return Some(NotFound);
      }
      var r := rows[id];
      if r.state != Attention && r.state != Expired {
        return None;
      }
      var tx := rows;
      match probe(id, r) {
        case ProbeError => fault := Some(ProbeFailed);
        case Unknown =>
          tx := tx[id := r.(state := Attention, reason := "liveness_unknown")];
          fault := Some(AttentionRequired);
        case Live =>
          if release {
            tx := tx[id := r.(state := Released, reason := "")];
            fault := None;
          } else {
            tx := tx[id := r.(state := Attention, reason := "process_still_live")];
            fault := Some(AttentionRequired);
          }
        case Dead =>
          tx := tx[id := r.(state := Released, reason := "")];
          fault := None;
      }
      if fault.None? {
        rows := tx;
      }
    }

    /** Inserts an enforcement request unless there is one already. */
    method EmitOnce(id: string, m: Metric) returns (created: bool)
      modifies this`enforced
      ensures created == ((id, m) !in old(enforced)) && enforced == old(enforced) + {(id, m)}
    {
      created := (id, m) !in enforced;
      enforced := enforced + {(id, m)};
    }

    method Observe(id: string, use: Use) returns (fault: Option<Error>, emitted: set<Metric>)
      requires Valid()
      modifies this`enforced
      ensures old(Within()) ==> Within()
      ensures Valid() && Contents() == Step(budget, old(Contents()), AdmissionModel.Observe(id, use))
      ensures fault == if id in rows then None else Some(NotFound)
      ensures forall m :: m in emitted <==> Emits(old(Contents()), id, use, m)
    {
      fault, emitted := None, {};
      if id !in rows {
        return Some(NotFound), {};
      }
      if rows[id].state != Active {
        return;
      }
      var rest := Exceeded(rows[id], use);
      while rest != {}
        invariant rest <= Exceeded(rows[id], use)
        invariant enforced == old(enforced) + set m | m in Exceeded(rows[id], use) - rest :: (id, m)
        invariant emitted == set m | m in Exceeded(rows[id], use) - rest && (id, m) !in old(enforced)
        decreases rest
      {
        var m :| m in rest;
        var created := EmitOnce(id, m);
        if created {
          emitted := emitted + {m};
        }
        rest := rest - {m};
      }
    }

    /** Any run of the service: everything proved of runs holds of what it leaves. */
    method PerformAll(ops: seq<Op>)
      requires Valid()
      modifies this
      ensures Valid() && Contents() == Run(budget, old(Contents()), ops)
    {
      for i := 0 to |ops|
        invariant Valid() && Contents() == Run(budget, old(Contents()), ops[..i])
      {
        assert ops[..i + 1][..i] == ops[..i];
        match ops[i] {
          case Claim(req, id, now, probe) =>
            var _ := Claim(req, id, now, probe);
          case Renew(id, generation, ttl, now, probe) =>
            var _ := Renew(id, generation, ttl, now, probe);
          case Release(id, generation) =>
            var _ := Release(id, generation);
          case Resolve(id, release, probe) =>
            var _ := ResolveAttention(id, release, probe);
          case Observe(id, use) =>
            var _, _ := Observe(id, use);
        }
      }
      assert ops[..|ops|] == ops;
    }
  }

  lemma AddAssociates(a: View, b: View, c: View)
    ensures Add(Add(a, b), c) == Add(a, Add(b, c))
  {}
}

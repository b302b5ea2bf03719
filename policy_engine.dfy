// The policy engine: rules kept in ascending `order`, run one after the
// other on a command, stopping at the first rule that does not ALLOW, with
// a trace of every rule that ran.
module PolicyEngines {
  import opened Wrappers
  import opened PolicyTypes
  import opened Policies

  const ENGINE_ID := "PolicyEngine"
  const ALL_PASSED := "policy.engine.all_rules_passed"
  const ALL_PASSED_MESSAGE := "All applicable policies passed."

  /** The decision reported when no rule objected. */
  const FALLBACK := PolicyResult(ALLOW, ENGINE_ID, Some(ALL_PASSED), Some(ALL_PASSED_MESSAGE), None)

  predicate SortedByOrder(ps: seq<Policy>)
  {
    forall i, j :: 0 <= i < j < |ps| ==> ps[i].Order() <= ps[j].Order()
  }

  /** The policies of `ps` with the given order, in their relative order. */
  function WithOrder(ps: seq<Policy>, order: int): (r: seq<Policy>)
    ensures |r| <= |ps|
    decreases |ps|
  {
    if ps == [] then []
    else WithOrder(ps[..|ps| - 1], order) + (if ps[|ps| - 1].Order() == order then [ps[|ps| - 1]] else [])
  }

  lemma {:induction false} WithOrderConcat(a: seq<Policy>, b: seq<Policy>, order: int)
    ensures WithOrder(a + b, order) == WithOrder(a, order) + WithOrder(b, order)
    decreases |b|
  {
    if b == [] {
      assert a + b == a;
    } else {
      var b' := b[..|b| - 1];
      assert (a + b)[..|a + b| - 1] == a + b';
      WithOrderConcat(a, b', order);
    }
  }

  /** No element of `s` has an order above `bound`. */
  predicate OrdersAtMost(s: seq<Policy>, bound: int)
  {
    forall k :: 0 <= k < |s| ==> s[k].Order() <= bound
  }

  /** Puts `p` after every element whose order is not larger. */
  function Insert(s: seq<Policy>, p: Policy): (r: seq<Policy>)
    ensures |r| == |s| + 1
    decreases |s|
  {
    if s == [] || s[|s| - 1].Order() <= p.Order() then s + [p]
    else Insert(s[..|s| - 1], p) + [s[|s| - 1]]
  }

  lemma {:induction false} InsertBounded(s: seq<Policy>, p: Policy, bound: int)
    requires OrdersAtMost(s, bound) && p.Order() <= bound
    ensures OrdersAtMost(Insert(s, p), bound)
    decreases |s|
  {
    if !(s == [] || s[|s| - 1].Order() <= p.Order()) {
      InsertBounded(s[..|s| - 1], p, bound);
      var r := Insert(s[..|s| - 1], p);
      assert forall k :: 0 <= k < |r| ==> (r + [s[|s| - 1]])[k] == r[k];
    }
  }

  lemma {:induction false} InsertSorted(s: seq<Policy>, p: Policy)
    requires SortedByOrder(s)
    ensures SortedByOrder(Insert(s, p))
    decreases |s|
  {
    if s == [] || s[|s| - 1].Order() <= p.Order() {
      assert OrdersAtMost(s, p.Order()) by {
        if s != [] {
          assert forall k :: 0 <= k < |s| ==> s[k].Order() <= s[|s| - 1].Order();
        }
      }
    } else {
      var init, last := s[..|s| - 1], s[|s| - 1];
      InsertSorted(init, p);
      assert OrdersAtMost(init, last.Order());
      InsertBounded(init, p, last.Order());
      var r := Insert(init, p);
      assert forall k :: 0 <= k < |r| ==> (r + [last])[k] == r[k];
    }
  }

  /** Inserting `p` adds it behind the rules of its own order and leaves every other order's rules alone. */
  lemma {:induction false} InsertWithOrder(s: seq<Policy>, p: Policy, o: int)
    ensures WithOrder(Insert(s, p), o) == WithOrder(s, o) + WithOrder([p], o)
    decreases |s|
  {
    if s == [] || s[|s| - 1].Order() <= p.Order() {
      WithOrderConcat(s, [p], o);
    } else {
      var init, last := s[..|s| - 1], s[|s| - 1];
      InsertWithOrder(init, p, o);
      WithOrderConcat(Insert(init, p), [last], o);
      WithOrderConcat(init, [last], o);
      assert init + [last] == s;
      assert WithOrder([last], o) == WithOrder([], o) + (if last.Order() == o then [last] else []);
      assert WithOrder([p], o) == WithOrder([], o) + (if p.Order() == o then [p] else []);
    }
  }

  /**
   * The constructor's `[...policies].sort((a, b) => a.order - b.order)`: a
   * stable sort, so among rules of one order the caller's order survives,
   * and no rule is lost or added.
   */
  function SortByOrder(ps: seq<Policy>): (sorted: seq<Policy>)
    ensures SortedByOrder(sorted) && |sorted| == |ps|
    ensures forall o :: WithOrder(sorted, o) == WithOrder(ps, o)
    decreases |ps|
  {
    if ps == [] then []
    else
      var init, last := ps[..|ps| - 1], ps[|ps| - 1];
      var rest := SortByOrder(init);
      InsertSorted(rest, last);
      forall o ensures WithOrder(Insert(rest, last), o) == WithOrder(ps, o) {
        InsertWithOrder(rest, last, o);
        WithOrderConcat(init, [last], o);
        assert init + [last] == ps;
      }
      Insert(rest, last)
  }

  /** A rule's entry in the trace. */
  function RecordOf(p: Policy, command: CommandType, ctx: PolicyContext): EvaluationRecord
    requires p.ShouldApply(command, ctx)
  {
    EvaluationRecord(p.Id(), p.Order(), p.Evaluate(command, ctx))
  }

  /** The trace so far and the objecting result, if any. */
  datatype Sweep = Sweep(records: seq<EvaluationRecord>, decision: Option<PolicyResult>)

  /** The fail-fast walk the engine performs, over the rules from first to last. */
  function Run(ps: seq<Policy>, command: CommandType, ctx: PolicyContext): Sweep
    decreases |ps|
  {
    if ps == [] then Sweep([], None)
    else if !ps[0].ShouldApply(command, ctx) then Run(ps[1..], command, ctx)
    else
      var rec := RecordOf(ps[0], command, ctx);
      if rec.result.status != ALLOW then Sweep([rec], Some(rec.result))
      else var rest := Run(ps[1..], command, ctx); Sweep([rec] + rest.records, rest.decision)
  }

  /** The rules of `ps` that apply to the command, in order. */
  function Applicable(ps: seq<Policy>, command: CommandType, ctx: PolicyContext): (r: seq<Policy>)
    ensures |r| <= |ps|
    ensures forall k :: 0 <= k < |r| ==> r[k].ShouldApply(command, ctx)
    decreases |ps|
  {
    if ps == [] then []
    else if ps[0].ShouldApply(command, ctx) then [ps[0]] + Applicable(ps[1..], command, ctx)
    else Applicable(ps[1..], command, ctx)
  }

  /** The trace is a prefix of the applicable rules' records; all but the last of them ALLOW. */
  predicate TracesPrefix(records: seq<EvaluationRecord>, apps: seq<Policy>, command: CommandType, ctx: PolicyContext)
    requires forall k :: 0 <= k < |apps| ==> apps[k].ShouldApply(command, ctx)
  {
    && |records| <= |apps|
    && (forall k :: 0 <= k < |records| ==> records[k] == RecordOf(apps[k], command, ctx))
    && (forall k :: 0 <= k < |records| - 1 ==> records[k].result.status == ALLOW)
  }

  /** An objection, if any, is the last record of the trace. */
  predicate EndsAtObjection(v: Sweep)
  {
    v.decision.Some? ==> |v.records| > 0 && v.decision.value == v.records[|v.records| - 1].result
                         && v.decision.value.status != ALLOW
  }

  /** Without an objection the trace holds an ALLOW for every applicable rule. */
  predicate AllAllowed(v: Sweep, apps: seq<Policy>)
  {
    v.decision.None? ==> |v.records| == |apps| && forall k :: 0 <= k < |v.records| ==> v.records[k].result.status == ALLOW
  }

  lemma PrefixCons(rec: EvaluationRecord, rest: Sweep, p: Policy, apps: seq<Policy>, command: CommandType, ctx: PolicyContext)
    requires p.ShouldApply(command, ctx) && rec == RecordOf(p, command, ctx) && rec.result.status == ALLOW
    requires forall k :: 0 <= k < |apps| ==> apps[k].ShouldApply(command, ctx)
    requires TracesPrefix(rest.records, apps, command, ctx) && EndsAtObjection(rest) && AllAllowed(rest, apps)
    ensures TracesPrefix([rec] + rest.records, [p] + apps, command, ctx)
    ensures EndsAtObjection(Sweep([rec] + rest.records, rest.decision))
    ensures AllAllowed(Sweep([rec] + rest.records, rest.decision), [p] + apps)
  {
    var recs, apps' := [rec] + rest.records, [p] + apps;
    assert forall k :: 1 <= k < |recs| ==> recs[k] == rest.records[k - 1];
    assert forall k :: 1 <= k < |apps'| ==> apps'[k] == apps[k - 1];
  }

  /**
   * What the walk produces: the records of the applicable rules in order,
   * up to and including the first that does not ALLOW.  If one objects, the
   * decision is its result and is the last record; if none does, every
   * applicable rule is in the trace and every record is an ALLOW.
   */
  lemma {:induction false} RunShape(ps: seq<Policy>, command: CommandType, ctx: PolicyContext)
    ensures TracesPrefix(Run(ps, command, ctx).records, Applicable(ps, command, ctx), command, ctx)
    ensures EndsAtObjection(Run(ps, command, ctx))
    ensures AllAllowed(Run(ps, command, ctx), Applicable(ps, command, ctx))
    decreases |ps|
  {
    if ps != [] {
      RunShape(ps[1..], command, ctx);
      if ps[0].ShouldApply(command, ctx) {
        var rec := RecordOf(ps[0], command, ctx);
        var apps := Applicable(ps[1..], command, ctx);
        assert Applicable(ps, command, ctx) == [ps[0]] + apps;
        if rec.result.status == ALLOW {
          PrefixCons(rec, Run(ps[1..], command, ctx), ps[0], apps, command, ctx);
        }
      }
    }
  }

  /** The decision never says ALLOW while some applicable rule objects. */
  lemma FirstObjectionDecides(ps: seq<Policy>, command: CommandType, ctx: PolicyContext, k: nat)
    requires k < |Applicable(ps, command, ctx)|
    requires RecordOf(Applicable(ps, command, ctx)[k], command, ctx).result.status != ALLOW
    ensures Run(ps, command, ctx).decision.Some?
  {
    RunShape(ps, command, ctx);
  }

  class PolicyEngine {
    const policies: seq<Policy>

    constructor (ps: seq<Policy>)
      ensures policies == SortByOrder(ps)
    {
      policies := SortByOrder(ps);
    }

    /**
     * `evaluate`: the walk over the sorted rules, then the fallback ALLOW
     * when nobody objected; the trace carries the command and the final
     * status.
     */
    method Evaluate(command: CommandType, ctx: PolicyContext) returns (decision: PolicyResult, trace: PolicyTrace)
      ensures var v := Run(policies, command, ctx);
        && decision == (if v.decision.Some? then v.decision.value else FALLBACK)
        && trace == PolicyTrace(command, decision.status, v.records)
    {
      var traceRecords: seq<EvaluationRecord> := [];
      var finalDecision: Option<PolicyResult> := None;
      var i := 0;
      while i < |policies|
        invariant 0 <= i <= |policies|
        invariant Run(policies, command, ctx) == Sweep(traceRecords + Run(policies[i..], command, ctx).records,
                                                      Run(policies[i..], command, ctx).decision)
      {
        var policy := policies[i];
        assert policies[i..][1..] == policies[i + 1..];
        if !policy.ShouldApply(command, ctx) {
          i := i + 1;
          continue;
        }
        var result := policy.Evaluate(command, ctx);
        var record := EvaluationRecord(policy.Id(), policy.Order(), result);
        traceRecords := traceRecords + [record];
        if result.status != ALLOW {
          finalDecision := Some(result);
          break;
        }
        i := i + 1;
      }
      assert i == |policies| ==> policies[i..] == [];
      if finalDecision.None? {
        finalDecision := Some(FALLBACK);
      }
      decision := finalDecision.value;
      trace := PolicyTrace(command, decision.status, traceRecords);
    }
  }
}

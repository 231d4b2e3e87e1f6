/** The file over its whole life: saves, enforcements and clearings, each under the
    policy and the clock of its caller. */
module HistoryLife {
  import opened Wrappers
  import opened Sorting
  import opened HistoryStore
  import opened HistoryEviction

  /** An operation of the store that was not stopped by the file system or the
      lifecycle; one that is leaves the file alone. */
  datatype Op =
    | Saving(record: Record, policy: Policy, now: nat)
    | Enforcing(policy: Policy, now: nat)
    | Clearing

  function Done(file: seq<Record>, op: Op): seq<Record> {
    match op
    case Saving(record, policy, now) =>
      var saved := Save(file, record, policy, now, true);
      if saved.Ok? then saved.value else file
    case Enforcing(policy, now) => Enforce(file, policy, now, true).value
    case Clearing => []
  }

  /** The operation gets as far as applying its policy: saving is on, and an id that
      is there already comes with the same content. */
  predicate Applies(file: seq<Record>, op: Op) {
    match op
    case Saving(record, policy, _) => policy.enabled && FindId(file, record.id) in {None, Some(record)}
    case Enforcing(policy, _) => policy.enabled
    case Clearing => false
  }

  function Added(op: Op): set<Record> {
    if op.Saving? then {op.record} else {}
  }

  function Life(ops: seq<Op>): seq<Record> {
    if ops == [] then [] else Done(Life(ops[..|ops| - 1]), ops[|ops| - 1])
  }

  /** Everything saved since the file was last cleared. */
  function EverSaved(ops: seq<Op>): set<Record> {
    if ops == [] then {}
    else
      var earlier, last := ops[..|ops| - 1], ops[|ops| - 1];
      if last.Clearing? then {}
      else EverSaved(earlier) + if Applies(Life(earlier), last) then Added(last) else {}
  }

  // ---------------------------------------------------------------- what always holds

  lemma DoneElements(file: seq<Record>, op: Op)
    requires UniqueIds(file)
    ensures !op.Clearing? && !Applies(file, op) ==> Done(file, op) == file
    ensures Applies(file, op) ==>
              && UniqueIds(Done(file, op)) && StrictlySorted(Older, Done(file, op))
              && Elements(Done(file, op))
                 == Newest(Elements(file) + Added(op), op.policy.limit, Cutoff(op.policy.retentionDays, op.now))
  {
    if Applies(file, op) {
      var records := if op.Saving? && FindId(file, op.record.id).None? then file + [op.record] else file;
      forall i, j | 0 <= i < j < |records| ensures records[i].id != records[j].id {
      }
      assert Elements(records) == Elements(file) + Added(op);
      PolicyKeepsNewest(records, op.policy, op.now);
      KeptIdsUnique(records, op.policy, op.now);
    }
  }

  /** The file is in order, has each id once, and holds only what was saved. */
  lemma {:induction false} LifeIsOrdered(ops: seq<Op>)
    ensures UniqueIds(Life(ops)) && StrictlySorted(Older, Life(ops)) && Elements(Life(ops)) <= EverSaved(ops)
    decreases |ops|
  {
    if ops != [] {
      var earlier, last := ops[..|ops| - 1], ops[|ops| - 1];
      LifeIsOrdered(earlier);
      DoneElements(Life(earlier), last);
    }
  }

  lemma {:induction false} EverSavedIsSaved(ops: seq<Op>)
    ensures forall r :: r in EverSaved(ops) ==> exists k :: 0 <= k < |ops| && ops[k].Saving? && ops[k].record == r
    decreases |ops|
  {
    if ops != [] {
      var earlier := ops[..|ops| - 1];
      EverSavedIsSaved(earlier);
      forall r | r in EverSaved(ops) ensures exists k :: 0 <= k < |ops| && ops[k].Saving? && ops[k].record == r {
        if r in EverSaved(earlier) {
          var k :| 0 <= k < |earlier| && earlier[k].Saving? && earlier[k].record == r;
          assert ops[k].record == r;
        }
      }
    }
  }

  // ---------------------------------------------------------------- the newest of everything saved

  /** After any operation that applies its policy, whatever came before under
      whatever policies and clocks, the file holds the newest unexpired records ever
      saved exactly if no record the policy now wants back was evicted before. */
  lemma HoldsNewestIff(ops: seq<Op>, op: Op)
    requires Applies(Life(ops), op)
    ensures var wanted := Newest(EverSaved(ops + [op]), op.policy.limit, Cutoff(op.policy.retentionDays, op.now));
            Elements(Life(ops + [op])) == wanted <==> wanted <= Elements(Life(ops)) + Added(op)
  {
    assert (ops + [op])[..|ops|] == ops;
    LifeIsOrdered(ops);
    DoneElements(Life(ops), op);
    NewestOfPartIff(EverSaved(ops + [op]), Elements(Life(ops)) + Added(op), op.policy.limit,
                    Cutoff(op.policy.retentionDays, op.now));
  }

  datatype Rule = Rule(limit: nat, cutoff: nat)

  function RuleOf(op: Op): Rule
    requires !op.Clearing?
  {
    Rule(op.policy.limit, Cutoff(op.policy.retentionDays, op.now))
  }

  /** The rule applied last since the file was last cleared. */
  function LastRule(ops: seq<Op>): Option<Rule> {
    if ops == [] || ops[|ops| - 1].Clearing? then None
    else if Applies(Life(ops[..|ops| - 1]), ops[|ops| - 1]) then Some(RuleOf(ops[|ops| - 1]))
    else LastRule(ops[..|ops| - 1])
  }

  /** No rule admits more records, or older ones, than the one before it. */
  predicate NeverLoosens(ops: seq<Op>) {
    ops == []
    || (var earlier, last := ops[..|ops| - 1], ops[|ops| - 1];
        && NeverLoosens(earlier)
        && (Applies(Life(earlier), last) && LastRule(earlier).Some? ==>
              && RuleOf(last).limit <= LastRule(earlier).value.limit
              && RuleOf(last).cutoff >= LastRule(earlier).value.cutoff))
  }

  /** However many records have come and gone, and whatever was retried or evicted
      on the way, the file holds the newest unexpired records ever saved, as long as
      the policy was only ever tightened; one policy under a clock that does not run
      backwards is a case of that. */
  lemma {:induction false} FileHoldsNewestEverSaved(ops: seq<Op>)
    requires NeverLoosens(ops)
    ensures LastRule(ops).None? ==> Life(ops) == []
    ensures LastRule(ops).Some? ==>
              Elements(Life(ops)) == Newest(EverSaved(ops), LastRule(ops).value.limit, LastRule(ops).value.cutoff)
    decreases |ops|
  {
    if ops != [] {
      var earlier, last := ops[..|ops| - 1], ops[|ops| - 1];
      var file := Life(earlier);
      FileHoldsNewestEverSaved(earlier);
      LifeIsOrdered(earlier);
      DoneElements(file, last);
      if Applies(file, last) {
        var rule := RuleOf(last);
        assert LastRule(ops) == Some(rule) && EverSaved(ops) == EverSaved(earlier) + Added(last);
        if LastRule(earlier).Some? {
          var before := LastRule(earlier).value;
          EvictionComposes(EverSaved(earlier), Added(last), before.limit, rule.limit, before.cutoff, rule.cutoff);
        } else {
          NothingSavedYet(earlier);
          assert Elements(file) + Added(last) == EverSaved(ops);
        }
      } else if last.Clearing? {
        assert Life(ops) == [] && LastRule(ops) == None;
      } else {
        assert Life(ops) == file && LastRule(ops) == LastRule(earlier) && EverSaved(ops) == EverSaved(earlier);
      }
    }
  }

  /** One policy, and a clock that does not run backwards. */
  predicate UnderOnePolicy(ops: seq<Op>, policy: Policy) {
    && (forall i :: 0 <= i < |ops| ==> !ops[i].Clearing? && ops[i].policy == policy)
    && (forall i, j :: 0 <= i < j < |ops| ==> ops[i].now <= ops[j].now)
  }

  lemma {:induction false} OnePolicyNeverLoosens(ops: seq<Op>, policy: Policy)
    requires UnderOnePolicy(ops, policy)
    ensures NeverLoosens(ops)
    ensures LastRule(ops).Some? ==>
              LastRule(ops).value.limit == policy.limit
              && LastRule(ops).value.cutoff <= Cutoff(policy.retentionDays, ops[|ops| - 1].now)
    decreases |ops|
  {
    if ops != [] {
      var earlier, last := ops[..|ops| - 1], ops[|ops| - 1];
      OnePolicyNeverLoosens(earlier, policy);
      if earlier != [] {
        CutoffMonotone(policy.retentionDays, earlier[|earlier| - 1].now, last.now);
      }
    }
  }

  lemma {:induction false} NothingSavedYet(ops: seq<Op>)
    requires LastRule(ops).None?
    ensures EverSaved(ops) == {}
    decreases |ops|
  {
    if ops != [] && !ops[|ops| - 1].Clearing? {
      NothingSavedYet(ops[..|ops| - 1]);
    }
  }

  /** A loosened policy does not bring back what a tighter one evicted. */
  lemma LoosenedLimitMisses(x: Record, y: Record, now: nat)
    requires x.createdAt < y.createdAt && x.id != y.id
    ensures var one, two := Policy(true, 1, None), Policy(true, 2, None);
            var ops := [Saving(x, one, now), Saving(y, one, now), Enforcing(two, now)];
            && EverSaved(ops) == {x, y} && Newest(EverSaved(ops), 2, 0) == {x, y}
            && Elements(Life(ops)) == {y}
  {
    var one, two := Policy(true, 1, None), Policy(true, 2, None);
    var op1, op2, op3 := Saving(x, one, now), Saving(y, one, now), Enforcing(two, now);
    NewestOfPair(x, y);
    hide Newest, Done, Applies, Added;
    SavedAlone(x, one, now);
    var first := Done([], op1);
    SavedBeside(first, x, y, one, now);
    var second := Done(first, op2);
    EnforcedAlone(second, y, two, now);
    LifeOfThree(op1, op2, op3);
  }

  lemma EnforcedAlone(file: seq<Record>, y: Record, policy: Policy, now: nat)
    requires UniqueIds(file) && Elements(file) == {y}
    requires policy.enabled && policy.retentionDays == None && Newest({y}, policy.limit, 0) == {y}
    ensures Applies(file, Enforcing(policy, now)) && Added(Enforcing(policy, now)) == {}
    ensures Elements(Done(file, Enforcing(policy, now))) == {y}
  {
    DoneElements(file, Enforcing(policy, now));
    assert Elements(file) + {} == {y};
  }

  lemma SavedAlone(x: Record, policy: Policy, now: nat)
    requires policy.enabled && policy.retentionDays == None && Newest({x}, policy.limit, 0) == {x}
    ensures var op := Saving(x, policy, now);
            Applies([], op) && Added(op) == {x} && UniqueIds(Done([], op)) && Elements(Done([], op)) == {x}
  {
    DoneElements([], Saving(x, policy, now));
    assert Elements([]) + {x} == {x};
  }

  lemma SavedBeside(file: seq<Record>, x: Record, y: Record, policy: Policy, now: nat)
    requires UniqueIds(file) && Elements(file) == {x} && x.id != y.id
    requires policy.enabled && policy.retentionDays == None && Newest({x, y}, policy.limit, 0) == {y}
    ensures var op := Saving(y, policy, now);
            Applies(file, op) && Added(op) == {y} && UniqueIds(Done(file, op)) && Elements(Done(file, op)) == {y}
  {
    forall i | 0 <= i < |file| ensures file[i].id != y.id {
      assert file[i] in Elements(file);
    }
    DoneElements(file, Saving(y, policy, now));
    assert Elements(file) + {y} == {x, y};
  }

  lemma NewestOfPair(x: Record, y: Record)
    requires x.createdAt < y.createdAt
    ensures Newest({x}, 1, 0) == {x} && Newest({x, y}, 1, 0) == {y} && Newest({x, y}, 2, 0) == {x, y}
    ensures Newest({y}, 2, 0) == {y}
  {
    OlderIsStrictOrder();
    assert NewerThan({x}, x) == {} && NewerThan({y}, y) == {} && NewerThan({x, y}, y) == {};
    assert NewerThan({x, y}, x) == {y};
  }

  lemma LifeOfThree(op1: Op, op2: Op, op3: Op)
    requires !op1.Clearing? && !op2.Clearing? && !op3.Clearing?
    requires Applies([], op1) && Applies(Done([], op1), op2) && Applies(Done(Done([], op1), op2), op3)
    ensures Life([op1, op2, op3]) == Done(Done(Done([], op1), op2), op3)
    ensures EverSaved([op1, op2, op3]) == Added(op1) + Added(op2) + Added(op3)
  {
    hide Done, Applies;
    assert [op1, op2, op3][..2] == [op1, op2] && [op1, op2][..1] == [op1] && [op1][..0] == [];
    assert Life([]) == [] && EverSaved([]) == {};
    assert Life([op1]) == Done([], op1) && EverSaved([op1]) == Added(op1);
    assert Life([op1, op2]) == Done(Life([op1]), op2);
    assert EverSaved([op1, op2]) == Added(op1) + Added(op2);
  }
}

/** The rule engine as an object over the alarm service, with its debounce rows updated in place,
    and the loading of a device's rules. */
module AlarmRuleEngine {
  import opened AlarmLifecycle
  import opened AlarmRules
  import opened Incidents
  import opened Options

  class TelemetryAlarmRuleEngine {
    const service: AlarmLifecycleService
    var rows: map<(nat, nat), Pending>

    constructor (service: AlarmLifecycleService)
      ensures this.service == service && rows == map[]
    {
      this.service, rows := service, map[];
    }

    ghost function Contents(): Engine
      reads this, service, service.alarms
    {
      Engine(service.Contents(), rows)
    }

    /** Counts a candidate action and returns the count. */
    method Count(device: nat, key: nat, a: Action) returns (count: nat)
      modifies this`rows
      ensures rows == old(rows)[(device, key) := SetPending(RowOf(old(rows), device, key), a)]
      ensures count == rows[(device, key)].count
    {
      var row := RowOf(rows, device, key);
      if row.action == Some(a) {
        count := row.count + 1;
      } else {
        count := 1;
      }
      rows := rows[(device, key) := Pending(Some(a), count)];
    }

    method Reset(device: nat, key: nat)
      modifies this`rows
      ensures rows == old(rows)[(device, key) := IDLE]
    {
      rows := rows[(device, key) := IDLE];
    }

    method Perform(device: nat, r: Rule, a: Action, at: int) returns (reply: Reply)
      requires service.Valid()
      modifies service, service.alarms
      ensures service.Valid() && (service.Contents(), reply) == CarryOut(old(service.Contents()), device, r, a, at)
      ensures forall x | x in service.alarms :: x in old(service.alarms) || fresh(x)
    {
      hide Raise, Resolve;
      var event := service.AddEvent(device);
      if a.RaiseAction? {
        reply := service.RaiseAlarm(RaiseCall(device, r.key, r.severity, at, Some(event), r.details));
      } else {
        reply := service.ResolveAlarm(ResolveCall(device, r.key, at, Some(event), r.details.context));
      }
    }

    method EvaluateOne(device: nat, r: Rule, p: Packet) returns (result: Option<RuleResult>)
      requires service.Valid()
      modifies this`rows, service, service.alarms
      ensures service.Valid() && (Contents(), result) == EvaluateRule(old(Contents()), device, r, p)
      ensures forall x | x in service.alarms :: x in old(service.alarms) || fresh(x)
    {
      hide CarryOut, FindActive, Candidate;
      if r.metric !in p.metrics {
        return None;
      }
      var sample := p.metrics[r.metric];
      if sample.Invalid? {
        Reset(device, r.key);
        return Some(RuleResult(r.key, InvalidValue, 0));
      }
      var active := service.GetActive(device, r.key);
      var candidate := Candidate(r, sample.x, active.Some?);
      if candidate.None? {
        Reset(device, r.key);
        return Some(RuleResult(r.key, if active.Some? then HoldActive else NormalValue, 0));
      }
      var count := Count(device, r.key, candidate.value);
      if count < r.samples {
        return Some(RuleResult(r.key, Waiting(candidate.value), count));
      }
      var reply := Perform(device, r, candidate.value, p.at);
      Reset(device, r.key);
      assert rows == old(rows)[(device, r.key) := IDLE];
      return Some(RuleResult(r.key, Carried(reply), 0));
    }

    /** All rules of a device on one packet. */
    method EvaluatePacket(device: nat, rules: seq<Rule>, p: Packet) returns (results: seq<RuleResult>)
      requires service.Valid()
      modifies this`rows, service, service.alarms
      ensures service.Valid() && (Contents(), results) == Evaluate(old(Contents()), device, rules, p)
    {
      hide EvaluateRule;
      results := [];
      if device !in service.devices {
        return;
      }
      for k := 0 to |rules|
        invariant service.Valid()
        invariant (Contents(), results) == EvaluateAll(old(Contents()), device, rules[..k], p)
        invariant forall x | x in service.alarms :: x in old(service.alarms) || fresh(x)
      {
        assert rules[..k + 1][..k] == rules[..k];
        assert forall i | 0 <= i < |service.alarms| :: service.alarms[i] in service.alarms;
        var result := EvaluateOne(device, rules[k], p);
        if result.Some? {
          results := results + [result.value];
        }
      }
      assert rules[..|rules|] == rules;
    }
  }

  // ---------------------------------------------------------------- loading

  /** The rules that take part: enabled, and not on a system key. */
  function Chosen(rules: seq<Rule>): (r: seq<Rule>)
    ensures forall i | 0 <= i < |r| :: r[i] in rules && r[i].enabled && !r[i].reserved
  {
    if rules == [] then []
    else
      var n := |rules| - 1;
      if rules[n].enabled && !rules[n].reserved then Chosen(rules[..n]) + [rules[n]] else Chosen(rules[..n])
  }

  function ChosenOf(configs: seq<seq<Rule>>): seq<Rule>
  {
    if configs == [] then [] else ChosenOf(configs[..|configs| - 1]) + Chosen(configs[|configs| - 1])
  }

  /** Loading keeps exactly the enabled rules on no system key, as often as they are configured. */
  lemma {:induction false} ChosenMeans(rules: seq<Rule>)
    ensures forall x: Rule :: multiset(Chosen(rules))[x] == if x.enabled && !x.reserved then multiset(rules)[x] else 0
  {
    if rules != [] {
      var n := |rules| - 1;
      ChosenMeans(rules[..n]);
      assert rules == rules[..n] + [rules[n]];
    }
  }

  lemma {:induction false} ChosenPrefix(rules: seq<Rule>, k: nat)
    requires k <= |rules|
    ensures Chosen(rules[..k]) <= Chosen(rules)
  {
    if k < |rules| {
      ChosenPrefix(rules[..|rules| - 1], k);
      assert rules[..|rules| - 1][..k] == rules[..k];
    } else {
      assert rules[..k] == rules;
    }
  }

  lemma {:induction false} ChosenOfPrefix(configs: seq<seq<Rule>>, k: nat)
    requires k <= |configs|
    ensures ChosenOf(configs[..k]) <= ChosenOf(configs)
  {
    if k < |configs| {
      ChosenOfPrefix(configs[..|configs| - 1], k);
      assert configs[..|configs| - 1][..k] == configs[..k];
    } else {
      assert configs[..k] == configs;
    }
  }

  /** Adds one configuration to the rules loaded so far; None if a key comes twice. */
  method LoadConfig(loaded: seq<Rule>, config: seq<Rule>) returns (r: Option<seq<Rule>>)
    requires DistinctKeys(loaded)
    ensures r == if DistinctKeys(loaded + Chosen(config)) then Some(loaded + Chosen(config)) else None
  {
    var all := loaded;
    var seen := set x | x in loaded :: x.key;
    for k := 0 to |config|
      invariant all == loaded + Chosen(config[..k]) && DistinctKeys(all)
      invariant seen == set x | x in all :: x.key
    {
      assert config[..k + 1][..k] == config[..k];
      var rule := config[k];
      if rule.enabled && !rule.reserved {
        ghost var more := all + [rule];
        assert more == loaded + Chosen(config[..k + 1]);
        if rule.key in seen {
          var i :| 0 <= i < |all| && all[i].key == rule.key;
          ChosenPrefix(config, k + 1);
          assert more <= loaded + Chosen(config) && more[i].key == more[|all|].key;
          return None;
        }
        assert forall i | 0 <= i < |all| :: all[i].key in seen;
        seen := seen + {rule.key};
        all := all + [rule];
      }
    }
    assert config[..|config|] == config;
    return Some(all);
  }

  /** The rules of all assigned capabilities, or None if any configuration is invalid or two
      participating rules share a key; what is loaded is ready for the engine. */
  method LoadRules(configs: seq<seq<Rule>>) returns (r: Option<seq<Rule>>)
    ensures r == if (forall i | 0 <= i < |configs| :: RulesOk(configs[i])) && DistinctKeys(ChosenOf(configs))
                 then Some(ChosenOf(configs)) else None
    ensures r.Some? ==> RulesOk(r.value)
  {
    hide DistinctKeys, RulesOk, ChosenOf;
    var all: seq<Rule> := [];
    NothingChosen(configs);
    for k := 0 to |configs|
      invariant all == ChosenOf(configs[..k]) && RulesOk(all)
      invariant forall i | 0 <= i < k :: RulesOk(configs[i])
    {
      OneMoreConfig(configs, k);
      if !RulesOk(configs[k]) {
        return None;
      }
      var more := LoadConfig(all, configs[k]);
      if more.None? {
        return None;
      }
      all := more.value;
    }
    assert configs[..|configs|] == configs;
    assert DistinctKeys(all) by { OkIsDistinct(all); }
    return Some(all);
  }

  lemma OkIsDistinct(rules: seq<Rule>)
    requires RulesOk(rules)
    ensures DistinctKeys(rules)
  {
  }

  lemma NothingChosen(configs: seq<seq<Rule>>)
    ensures ChosenOf(configs[..0]) == [] && RulesOk([])
  {
  }

  /** Loading one configuration after the first `k`. */
  lemma OneMoreConfig(configs: seq<seq<Rule>>, k: nat)
    requires k < |configs| && RulesOk(ChosenOf(configs[..k]))
    ensures DistinctKeys(ChosenOf(configs[..k]))
    ensures ChosenOf(configs[..k + 1]) == ChosenOf(configs[..k]) + Chosen(configs[k])
    ensures RulesOk(configs[k]) && DistinctKeys(ChosenOf(configs[..k + 1])) ==> RulesOk(ChosenOf(configs[..k + 1]))
    ensures DistinctKeys(ChosenOf(configs)) ==> DistinctKeys(ChosenOf(configs[..k + 1]))
  {
    hide ChosenOf, RulesOk, DistinctKeys, Chosen;
    LastConfig(configs, k);
    ChosenOfPrefix(configs, k + 1);
    OkIsDistinct(ChosenOf(configs[..k]));
    if DistinctKeys(ChosenOf(configs)) { PrefixIsDistinct(ChosenOf(configs[..k + 1]), ChosenOf(configs)); }
    if RulesOk(configs[k]) && DistinctKeys(ChosenOf(configs[..k + 1])) {
      TogetherOk(ChosenOf(configs[..k]), configs[k]);
    }
  }

  lemma LastConfig(configs: seq<seq<Rule>>, k: nat)
    requires k < |configs|
    ensures ChosenOf(configs[..k + 1]) == ChosenOf(configs[..k]) + Chosen(configs[k])
  {
    assert configs[..k + 1][..k] == configs[..k];
  }

  lemma PrefixIsDistinct(a: seq<Rule>, b: seq<Rule>)
    requires a <= b && DistinctKeys(b)
    ensures DistinctKeys(a)
  {
  }

  lemma TogetherOk(loaded: seq<Rule>, config: seq<Rule>)
    requires RulesOk(loaded) && RulesOk(config) && DistinctKeys(loaded + Chosen(config))
    ensures RulesOk(loaded + Chosen(config))
  {
    hide DistinctKeys, Chosen, ValidRule;
    ChosenAreValid(config);
  }

  lemma ChosenAreValid(rules: seq<Rule>)
    requires RulesOk(rules)
    ensures forall i | 0 <= i < |Chosen(rules)| :: ValidRule(Chosen(rules)[i])
  {
    hide ValidRule, DistinctKeys, Chosen;
  }
}

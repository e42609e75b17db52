/**
 * Properties of the limiter's configuration, of `reset` and of `check`, including the two
 * places where the code misses its evident aim: `check` reads keys without the namespace
 * prefix, and `reset` without names builds its keys from listener table entries (see the
 * Findings in README.md).
 */
module LimiterFacts {
  import opened Wrappers
  import opened RedisStore
  import opened HitScript
  import opened HitScriptFacts
  import opened Limiter

  /**
   * Constructor layout: four argument entries per rule in configuration order; entry 4i is
   * the i-th name, then the limit, the window TTL and the block TTL, 0 when it is missing.
   */
  lemma FlattenLayout(limits: seq<(string, LimitConfig)>, i: nat)
    requires i < |limits|
    ensures |Flatten(limits)| == 4 * |limits|
    ensures Flatten(limits)[4 * i] == Text(Names(limits)[i]) && Names(limits)[i] == limits[i].0
    ensures Flatten(limits)[4 * i + 1] == Int(limits[i].1.limit)
    ensures Flatten(limits)[4 * i + 2] == Int(limits[i].1.ttl)
    ensures Flatten(limits)[4 * i + 3] == Int(if limits[i].1.ttlBlock.Some? then limits[i].1.ttlBlock.value else 0)
  {
    FlattenRules(limits);
    var f := Flatten(limits);
    var rules := RulesOf(f);
    assert rules[i] == RuleOf(limits[i]);
    var quad := f[4 * i .. 4 * i + 4];
    assert Quad(rules[i]) == quad;
    assert f[4 * i] == quad[0] && f[4 * i + 1] == quad[1] && f[4 * i + 2] == quad[2] && f[4 * i + 3] == quad[3];
  }

  /** HitKey keeps rule names apart. */
  lemma HitKeyNotIn(name: string, key: string, m: string, ns: seq<string>)
    requires m !in ns
    ensures HitKey(name, key, m) !in (set j | 0 <= j < |ns| :: HitKey(name, key, ns[j]))
  {
    if HitKey(name, key, m) in (set j | 0 <= j < |ns| :: HitKey(name, key, ns[j])) {
      var j :| 0 <= j < |ns| && HitKey(name, key, m) == HitKey(name, key, ns[j]);
      RecordKeyInjective(Prefix, name, key, m, ns[j]);
    }
  }

  /**
   * `reset` with names deletes exactly those names' records: a named rule's record is gone,
   * and every other rule's record is as it was.
   */
  lemma ResetExactly(s: Store, name: string, key: string, ns: seq<string>,
                     listeners: map<string, Option<Listener>>, m: string)
    ensures At(DelKeys(s, ResetKeys(name, key, Some(ns), listeners)), HitKey(name, key, m)) ==
            if m in ns then None else At(s, HitKey(name, key, m))
  {
    if m in ns {
      var j :| 0 <= j < |ns| && ns[j] == m;
      assert HitKey(name, key, m) in ResetKeys(name, key, Some(ns), listeners);
    } else {
      HitKeyNotIn(name, key, m, ns);
    }
  }

  /**
   * `reset` without names, as written: the keys it deletes are built from listener table
   * entries, and none of them is a configured rule's record unless that rule's name holds a
   * comma, so the records survive.
   */
  lemma ResetAllMissesRecords(s: Store, name: string, key: string,
                              listeners: map<string, Option<Listener>>, m: string)
    requires ',' !in m
    ensures At(DelKeys(s, ResetKeys(name, key, None, listeners)), HitKey(name, key, m)) == At(s, HitKey(name, key, m))
  {
    if HitKey(name, key, m) in ResetKeys(name, key, None, listeners) {
      var n :| n in listeners && HitKey(name, key, m) == HitKey(name, key, EntryText(n, listeners[n]));
      RecordKeyInjective(Prefix, name, key, m, EntryText(n, listeners[n]));
    }
  }

  /**
   * `reset` without names, as meant: every configured rule's record is gone, and the next
   * hit behaves exactly as it would on a key never seen: same reply, same records.
   */
  lemma ResetAllFresh(s: Store, name: string, key: string, element: string, rules: seq<Rule>)
    ensures var s' := DelKeys(s, IntendedResetKeys(name, key, None, NamesOfRules(rules)));
            forall i :: 0 <= i < |rules| ==> At(s', HitKey(name, key, rules[i].name)) == None
    ensures var s' := DelKeys(s, IntendedResetKeys(name, key, None, NamesOfRules(rules)));
            var r1 := Eval(s', name, key, element, rules);
            var r2 := Eval(map[], name, key, element, rules);
            ReplyOf(r1) == ReplyOf(r2) &&
            forall i :: 0 <= i < |rules| ==>
              At(r1.store, HitKey(name, key, rules[i].name)) == At(r2.store, HitKey(name, key, rules[i].name))
  {
    var names := NamesOfRules(rules);
    var s' := DelKeys(s, IntendedResetKeys(name, key, None, names));
    forall i | 0 <= i < |rules| ensures At(s', HitKey(name, key, rules[i].name)) == None {
      assert names[i] == rules[i].name;
      assert HitKey(name, key, rules[i].name) in IntendedResetKeys(name, key, None, names);
    }
    EvalLocal(s', map[], name, key, element, rules);
  }

  /**
   * `check` as written looks under keys without the namespace prefix, so on a store holding
   * only the limiter's own records it always passes (unless the limiter's name starts with '@').
   */
  lemma CheckSeesNothing(s: Store, name: string, key: string, names: seq<string>,
                         listeners: map<string, Option<Listener>>)
    requires LimiterRecordsOnly(s)
    requires name == "" || name[0] != '@'
    ensures CheckSpec(s, "", name, key, names, listeners) == Passed
  {
    forall i | 0 <= i < |names| ensures !IsMarker(s, RecordKey("", name, key, names[i])) {
      var k := RecordKey("", name, key, names[i]);
      assert k == name + (":" + key + ":" + names[i]);
      OutsideNamespace(s, k);
    }
  }

  /** A key whose first character is not '@' is not among the limiter's records. */
  lemma OutsideNamespace(s: Store, k: string)
    requires LimiterRecordsOnly(s)
    requires |k| > 0 && k[0] != '@'
    ensures k !in s
  {
  }

  /**
   * `check` as written misses a block `hit` has just set: the hit fails, yet a check right
   * after it passes.
   */
  lemma CheckMissesBlock(s: Store, name: string, key: string, element: string, rules: seq<Rule>,
                         listeners: map<string, Option<Listener>>, s': Store, n: string, t: int)
    requires LimiterRecordsOnly(s)
    requires name == "" || name[0] != '@'
    requires Eval(s, name, key, element, rules) == Stop(s', Pair(n, t))
    ensures Raise(listeners, Pair(n, t)) != Passed
    ensures CheckSpec(s', "", name, key, NamesOfRules(rules), listeners) == Passed
  {
    EvalKeepsNamespace(s, name, key, element, rules);
    CheckSeesNothing(s', name, key, NamesOfRules(rules), listeners);
  }

  /**
   * `check` as meant re-confirms the decision of the hit that blocked: right after a hit
   * that replied (name, ttl), it fails the same way, naming the same rule with the same TTL.
   */
  lemma CheckConfirmsBlock(s: Store, name: string, key: string, element: string, rules: seq<Rule>,
                           listeners: map<string, Option<Listener>>, s': Store, n: string, t: int)
    requires DistinctNames(rules)
    requires Eval(s, name, key, element, rules) == Stop(s', Pair(n, t))
    ensures CheckSpec(s', Prefix, name, key, NamesOfRules(rules), listeners) == Raise(listeners, Pair(n, t))
  {
    StopWitness(s, name, key, element, rules, s', n, t);
    var j :| 0 <= j < |rules| && rules[j].name == n &&
             IsMarker(s', HitKey(name, key, n)) && TtlAt(s', HitKey(name, key, n)) == t &&
             forall m :: 0 <= m < j ==> !IsMarker(s', HitKey(name, key, rules[m].name));
    var names := NamesOfRules(rules);
    var keys := RuleKeys(Prefix, name, key, names);
    assert keys[j] == HitKey(name, key, n);
    forall m | 0 <= m < j ensures !IsMarker(s', keys[m]) {
      assert keys[m] == HitKey(name, key, rules[m].name);
    }
    assert FirstMarker(s', keys) == Some(j);
  }

  /**
   * Fresh key, single rule, counter mode, seen through the `hit` wrapper: the first `limit`
   * calls pass and every later one calls the rule's listener and throws LIMIT_EXCEEDED.
   */
  lemma FreshKeyHits(s: Store, name: string, key: string, rule: Rule,
                     listeners: map<string, Option<Listener>>, n: nat)
    requires HitKey(name, key, rule.name) !in s
    requires rule.ttl > 0 && 0 <= rule.limit < MaxCounter
    requires rule.name in listeners && listeners[rule.name].Some?
    ensures var replies := Hits(s, name, key, "", [rule], n).1;
            forall j :: 0 <= j < n ==>
              Raise(listeners, replies[j]) ==
                if j < rule.limit then Passed else LimitExceeded(rule.name, FreshBlockTtl(rule))
  {
    FreshWindow(s, name, key, rule, n);
  }
}

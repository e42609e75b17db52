/**
 * What one run of the `hit` script does to the store, rule by rule:
 * it visits the rules in order, touches only the records of the rules it
 * visits, and stops at a blocked record, at a limit that is exceeded, or at
 * an element that was already counted.
 */
module HitScriptFacts {
  import opened Wrappers
  import opened RedisStore
  import opened HitScript

  /** k is the record of none of the rules. */
  predicate Untouched(k: string, name: string, key: string, rules: seq<Rule>) {
    forall j :: 0 <= j < |rules| ==> k != HitKey(name, key, rules[j].name)
  }

  /** With unique names, every rule's record is untouched by every other rule. */
  lemma OthersUntouched(name: string, key: string, rules: seq<Rule>, i: nat)
    requires DistinctNames(rules) && i < |rules|
    ensures Untouched(HitKey(name, key, rules[i].name), name, key, rules[..i])
    ensures Untouched(HitKey(name, key, rules[i].name), name, key, rules[i + 1..])
  {
    forall j | 0 <= j < |rules| && j != i
      ensures HitKey(name, key, rules[i].name) != HitKey(name, key, rules[j].name)
    {
      if HitKey(name, key, rules[i].name) == HitKey(name, key, rules[j].name) {
        RecordKeyInjective(Prefix, name, key, rules[i].name, rules[j].name);
      }
    }
  }

  /** Evaluating a + b is evaluating a, then b from where a left the store, unless a stopped. */
  lemma {:induction false} Compose(s: Store, name: string, key: string, element: string, a: seq<Rule>, b: seq<Rule>)
    ensures Eval(s, name, key, element, a + b) ==
            match Eval(s, name, key, element, a)
            case Continue(s') => Eval(s', name, key, element, b)
            case Stop(s', reply) => Stop(s', reply)
    decreases |a|
  {
    if a == [] {
      assert a + b == b;
    } else {
      assert (a + b)[0] == a[0];
      assert (a + b)[1..] == a[1..] + b;
      match Step(s, name, key, element, a[0])
      case Continue(s1) => Compose(s1, name, key, element, a[1..], b);
      case Stop(_, _) =>
    }
  }

  /** Evaluating the rules before i and then rule i's step. */
  lemma PrefixThenStep(s: Store, name: string, key: string, element: string, rules: seq<Rule>, i: nat, s1: Store)
    requires i < |rules|
    requires Eval(s, name, key, element, rules[..i]) == Continue(s1)
    ensures Eval(s, name, key, element, rules) ==
            match Step(s1, name, key, element, rules[i])
            case Continue(s2) => Eval(s2, name, key, element, rules[i + 1..])
            case Stop(s2, reply) => Stop(s2, reply)
  {
    assert rules == rules[..i] + rules[i..];
    Compose(s, name, key, element, rules[..i], rules[i..]);
    assert rules[i..][0] == rules[i] && rules[i..][1..] == rules[i + 1..];
  }

  /** A step changes no record but its own rule's. */
  lemma StepFrame(s: Store, name: string, key: string, element: string, rule: Rule, k: string)
    requires k != HitKey(name, key, rule.name)
    ensures At(Step(s, name, key, element, rule).store, k) == At(s, k)
  {
  }

  /** A run changes no record outside the rules' own. */
  lemma {:induction false} EvalFrame(s: Store, name: string, key: string, element: string, rules: seq<Rule>, k: string)
    requires Untouched(k, name, key, rules)
    ensures At(Eval(s, name, key, element, rules).store, k) == At(s, k)
    decreases |rules|
  {
    if rules != [] {
      StepFrame(s, name, key, element, rules[0], k);
      match Step(s, name, key, element, rules[0])
      case Continue(s1) =>
        assert Untouched(k, name, key, rules[1..]) by {
          forall j | 0 <= j < |rules[1..]| ensures k != HitKey(name, key, rules[1..][j].name) {
            assert rules[1..][j] == rules[j + 1];
          }
        }
        EvalFrame(s1, name, key, element, rules[1..], k);
      case Stop(_, _) =>
    }
  }

  /**
   * Blocked marker stops evaluation: when rule i's record holds the marker and the
   * rules before it let the request through, the script replies with rule i's name and
   * the record's TTL, and leaves rule i's record and those of all later rules as they were.
   */
  lemma BlockedStops(s: Store, name: string, key: string, element: string, rules: seq<Rule>, i: nat)
    requires DistinctNames(rules) && i < |rules|
    requires IsMarker(s, HitKey(name, key, rules[i].name))
    requires Eval(s, name, key, element, rules[..i]).Continue?
    ensures var s1 := Eval(s, name, key, element, rules[..i]).store;
            Eval(s, name, key, element, rules) ==
              Stop(s1, Pair(rules[i].name, TtlAt(s, HitKey(name, key, rules[i].name))))
    ensures forall j :: i <= j < |rules| ==>
              At(Eval(s, name, key, element, rules).store, HitKey(name, key, rules[j].name))
              == At(s, HitKey(name, key, rules[j].name))
  {
    var s1 := Eval(s, name, key, element, rules[..i]).store;
    var k := HitKey(name, key, rules[i].name);
    OthersUntouched(name, key, rules, i);
    EvalFrame(s, name, key, element, rules[..i], k);
    PrefixThenStep(s, name, key, element, rules, i, s1);
    forall j | i <= j < |rules|
      ensures At(s1, HitKey(name, key, rules[j].name)) == At(s, HitKey(name, key, rules[j].name))
    {
      OthersUntouched(name, key, rules, j);
      assert Untouched(HitKey(name, key, rules[j].name), name, key, rules[..i]) by {
        forall m | 0 <= m < i ensures HitKey(name, key, rules[j].name) != HitKey(name, key, rules[..i][m].name) {
          assert rules[..i][m] == rules[..j][m];
        }
      }
      EvalFrame(s, name, key, element, rules[..i], HitKey(name, key, rules[j].name));
    }
  }

  /** The record a counting step can work on: absent, a counter INCR can still raise, or a set without the element. */
  predicate Countable(before: Option<Record>, element: string) {
    match before
    case None => true
    case Some(r) =>
      if element == "" then r.value.Counter? && r.value.count < MaxCounter
      else r.value.Members? && element !in r.value.elements
  }

  /** The counter after INCR, or the cardinality after SADD, of a countable record. */
  function NewValue(before: Option<Record>, element: string): int
    requires Countable(before, element)
  {
    match before
    case None => 1
    case Some(r) => if element == "" then r.value.count + 1 else |r.value.elements| + 1
  }

  /** The value INCR or SADD leaves in a countable record. */
  function CountedValue(before: Option<Record>, element: string): Value
    requires Countable(before, element)
  {
    match before
    case None => if element == "" then Counter(1) else Members({element})
    case Some(r) => if element == "" then Counter(r.value.count + 1) else Members(r.value.elements + {element})
  }

  function TtlBefore(before: Option<Record>): int {
    match before
    case None => NoExpiry
    case Some(r) => r.ttl
  }

  /**
   * A counted record: the new value, with the window TTL started when the new value is 1
   * (EXPIRE with a non-positive window deletes it) and the old TTL kept otherwise.
   */
  function AfterCount(before: Option<Record>, element: string, window: int): Option<Record>
    requires Countable(before, element)
  {
    if NewValue(before, element) == 1 then
      (if window > 0 then Some(Record(CountedValue(before, element), window)) else None)
    else Some(Record(CountedValue(before, element), TtlBefore(before)))
  }

  /** One step that lets the request through has counted the rule's record and stayed within the limit. */
  lemma StepCounts(s: Store, name: string, key: string, element: string, rule: Rule, s1: Store)
    requires Step(s, name, key, element, rule) == Continue(s1)
    ensures var before := At(s, HitKey(name, key, rule.name));
            Countable(before, element) && NewValue(before, element) <= rule.limit &&
            At(s1, HitKey(name, key, rule.name)) == AfterCount(before, element, rule.ttl)
  {
  }

  /**
   * Counting: when no rule stops the script, every rule's record was counted once, its
   * counter rose by exactly one (or its set gained the element), the result is within the
   * limit, and the window TTL was set exactly when the new value is 1.
   */
  lemma {:induction false} CountingRun(s: Store, name: string, key: string, element: string, rules: seq<Rule>, s': Store)
    requires DistinctNames(rules)
    requires Eval(s, name, key, element, rules) == Continue(s')
    ensures forall i :: 0 <= i < |rules| ==>
              var before := At(s, HitKey(name, key, rules[i].name));
              Countable(before, element) && NewValue(before, element) <= rules[i].limit &&
              At(s', HitKey(name, key, rules[i].name)) == AfterCount(before, element, rules[i].ttl)
    decreases |rules|
  {
    if rules != [] {
      var s1 := Step(s, name, key, element, rules[0]).store;
      assert Step(s, name, key, element, rules[0]) == Continue(s1);
      StepCounts(s, name, key, element, rules[0], s1);
      var rest := rules[1..];
      assert DistinctNames(rest) by {
        forall i, j | 0 <= i < j < |rest| ensures rest[i].name != rest[j].name {
          assert rest[i] == rules[i + 1] && rest[j] == rules[j + 1];
        }
      }
      CountingRun(s1, name, key, element, rest, s');
      OthersUntouched(name, key, rules, 0);
      assert rules[1..] == rest;
      EvalFrame(s1, name, key, element, rest, HitKey(name, key, rules[0].name));
      forall i | 1 <= i < |rules|
        ensures At(s1, HitKey(name, key, rules[i].name)) == At(s, HitKey(name, key, rules[i].name))
      {
        OthersUntouched(name, key, rules, i);
        assert rules[..i][0] == rules[0];
        StepFrame(s, name, key, element, rules[0], HitKey(name, key, rules[i].name));
      }
      forall i | 1 <= i < |rules|
        ensures var before := At(s, HitKey(name, key, rules[i].name));
                Countable(before, element) && NewValue(before, element) <= rules[i].limit &&
                At(s', HitKey(name, key, rules[i].name)) == AfterCount(before, element, rules[i].ttl)
      {
        assert rules[i] == rest[i - 1];
      }
    }
  }

  /** One step over a countable record whose new value is over the limit. */
  lemma StepExceeds(s: Store, name: string, key: string, element: string, rule: Rule)
    requires Countable(At(s, HitKey(name, key, rule.name)), element)
    requires NewValue(At(s, HitKey(name, key, rule.name)), element) > rule.limit
    ensures var k := HitKey(name, key, rule.name);
            var ttl := if rule.ttlBlock > 0 then rule.ttlBlock else TtlBefore(At(s, k));
            Step(s, name, key, element, rule) == Stop(s[k := Record(Blocked, ttl)], Pair(rule.name, ttl))
  {
  }

  /**
   * Exceeding the limit blocks: when rule i is reached with a countable record whose new
   * value is over the limit, the record becomes the marker, keeping its TTL unless a
   * positive block TTL replaces it, the reply names rule i with that TTL, and the script
   * stops there, so no later rule is touched.
   */
  lemma ExceedBlocks(s: Store, name: string, key: string, element: string, rules: seq<Rule>, i: nat, s1: Store)
    requires DistinctNames(rules) && i < |rules|
    requires Eval(s, name, key, element, rules[..i]) == Continue(s1)
    requires Countable(At(s, HitKey(name, key, rules[i].name)), element)
    requires NewValue(At(s, HitKey(name, key, rules[i].name)), element) > rules[i].limit
    ensures var k := HitKey(name, key, rules[i].name);
            var ttl := if rules[i].ttlBlock > 0 then rules[i].ttlBlock else TtlBefore(At(s, k));
            Eval(s, name, key, element, rules) == Stop(s1[k := Record(Blocked, ttl)], Pair(rules[i].name, ttl))
  {
    var k := HitKey(name, key, rules[i].name);
    OthersUntouched(name, key, rules, i);
    EvalFrame(s, name, key, element, rules[..i], k);
    PrefixThenStep(s, name, key, element, rules, i, s1);
    StepExceeds(s1, name, key, element, rules[i]);
  }

  /**
   * Element already seen: when rule i is reached with an element its set already holds,
   * the script replies with the empty table at once; that set and every later rule's
   * record are left as they were.
   */
  lemma ElementSeen(s: Store, name: string, key: string, element: string, rules: seq<Rule>, i: nat, s1: Store)
    requires DistinctNames(rules) && i < |rules| && element != ""
    requires Eval(s, name, key, element, rules[..i]) == Continue(s1)
    requires ValueAt(s, HitKey(name, key, rules[i].name)).Some?
    requires var v := ValueAt(s, HitKey(name, key, rules[i].name)).value;
             v.Members? && element in v.elements
    ensures Eval(s, name, key, element, rules) == Stop(s1, Empty)
    ensures forall j :: i <= j < |rules| ==>
              At(s1, HitKey(name, key, rules[j].name)) == At(s, HitKey(name, key, rules[j].name))
  {
    var k := HitKey(name, key, rules[i].name);
    OthersUntouched(name, key, rules, i);
    EvalFrame(s, name, key, element, rules[..i], k);
    PrefixThenStep(s, name, key, element, rules, i, s1);
    forall j | i <= j < |rules|
      ensures At(s1, HitKey(name, key, rules[j].name)) == At(s, HitKey(name, key, rules[j].name))
    {
      OthersUntouched(name, key, rules, j);
      assert Untouched(HitKey(name, key, rules[j].name), name, key, rules[..i]) by {
        forall m | 0 <= m < i ensures HitKey(name, key, rules[j].name) != HitKey(name, key, rules[..i][m].name) {
          assert rules[..i][m] == rules[..j][m];
        }
      }
      EvalFrame(s, name, key, element, rules[..i], HitKey(name, key, rules[j].name));
    }
  }

  /** n successive runs of the script for the same key, and their replies in order. */
  function Hits(s: Store, name: string, key: string, element: string, rules: seq<Rule>, n: nat): (r: (Store, seq<ScriptReply>))
    ensures |r.1| == n
    decreases n
  {
    if n == 0 then (s, [])
    else
      var previous := Hits(s, name, key, element, rules, n - 1);
      var run := Eval(previous.0, name, key, element, rules);
      (run.store, previous.1 + [ReplyOf(run)])
  }

  /** The TTL a single counter-mode rule reports once it blocks a key that started fresh. */
  function FreshBlockTtl(rule: Rule): int {
    if rule.ttlBlock > 0 then rule.ttlBlock else if rule.limit == 0 then NoExpiry else rule.ttl
  }

  /**
   * Fresh key, single rule, counter mode: the first `limit` hits reply with the empty table
   * and leave the counter at the number of hits under the window TTL; every later hit replies
   * with the rule's name, and the record stays the marker. No other record changes.
   * (With limit 0 and no block TTL the window was never started, so the block has no expiry.)
   */
  lemma {:induction false} FreshWindow(s: Store, name: string, key: string, rule: Rule, n: nat)
    requires HitKey(name, key, rule.name) !in s
    requires rule.ttl > 0 && 0 <= rule.limit < MaxCounter
    ensures var r := Hits(s, name, key, "", [rule], n);
            forall j :: 0 <= j < n ==>
              r.1[j] == if j < rule.limit then Empty else Pair(rule.name, FreshBlockTtl(rule))
    ensures var r := Hits(s, name, key, "", [rule], n);
            At(r.0, HitKey(name, key, rule.name)) ==
              if n == 0 then None
              else if n <= rule.limit then Some(Record(Counter(n), rule.ttl))
              else Some(Record(Blocked, FreshBlockTtl(rule)))
    ensures var r := Hits(s, name, key, "", [rule], n);
            forall k :: k != HitKey(name, key, rule.name) ==> At(r.0, k) == At(s, k)
    decreases n
  {
    if n > 0 {
      FreshWindow(s, name, key, rule, n - 1);
      var previous := Hits(s, name, key, "", [rule], n - 1);
      var k := HitKey(name, key, rule.name);
      assert [rule][0] == rule && [rule][1..] == [];
      var step := Step(previous.0, name, key, "", rule);
      assert Eval(previous.0, name, key, "", [rule]) ==
        match step
        case Continue(x) => Continue(x)
        case Stop(x, reply) => Stop(x, reply);
      forall k' | k' != k ensures At(step.store, k') == At(previous.0, k') {
        StepFrame(previous.0, name, key, "", rule, k');
      }
      if n - 1 < rule.limit {
        assert Countable(At(previous.0, k), "");
        assert Step(previous.0, name, key, "", rule) == Continue(step.store);
        StepCounts(previous.0, name, key, "", rule, step.store);
      } else if n - 1 == rule.limit {
        StepExceeds(previous.0, name, key, "", rule);
      }
    }
  }

  /** A step that stops with a pair leaves that rule's record blocked with the TTL it reports. */
  lemma StepStopsBlocked(s: Store, name: string, key: string, element: string, rule: Rule, s1: Store, n: string, t: int)
    requires Step(s, name, key, element, rule) == Stop(s1, Pair(n, t))
    ensures n == rule.name && IsMarker(s1, HitKey(name, key, n)) && TtlAt(s1, HitKey(name, key, n)) == t
  {
  }

  /**
   * A run that replies with a pair leaves the named rule's record blocked with the reported
   * TTL, and the records of all rules before it are not blocked.
   */
  lemma {:induction false} StopWitness(s: Store, name: string, key: string, element: string, rules: seq<Rule>, s': Store, n: string, t: int)
    requires DistinctNames(rules)
    requires Eval(s, name, key, element, rules) == Stop(s', Pair(n, t))
    ensures exists j :: 0 <= j < |rules| && rules[j].name == n &&
              IsMarker(s', HitKey(name, key, n)) && TtlAt(s', HitKey(name, key, n)) == t &&
              forall m :: 0 <= m < j ==> !IsMarker(s', HitKey(name, key, rules[m].name))
    decreases |rules|
  {
    assert rules != [];
    match Step(s, name, key, element, rules[0])
    case Stop(s1, reply) =>
      StepStopsBlocked(s, name, key, element, rules[0], s', n, t);
      assert rules[0].name == n;
    case Continue(s1) =>
      var rest := rules[1..];
      assert DistinctNames(rest) by {
        forall i, j | 0 <= i < j < |rest| ensures rest[i].name != rest[j].name {
          assert rest[i] == rules[i + 1] && rest[j] == rules[j + 1];
        }
      }
      StopWitness(s1, name, key, element, rest, s', n, t);
      var j' :| 0 <= j' < |rest| && rest[j'].name == n &&
               IsMarker(s', HitKey(name, key, n)) && TtlAt(s', HitKey(name, key, n)) == t &&
               forall m :: 0 <= m < j' ==> !IsMarker(s', HitKey(name, key, rest[m].name));
      StepCounts(s, name, key, element, rules[0], s1);
      OthersUntouched(name, key, rules, 0);
      assert rules[1..] == rest;
      EvalFrame(s1, name, key, element, rest, HitKey(name, key, rules[0].name));
      assert !IsMarker(s', HitKey(name, key, rules[0].name));
      forall m | 0 <= m < j' + 1 ensures !IsMarker(s', HitKey(name, key, rules[m].name)) {
        if m > 0 {
          assert rules[m] == rest[m - 1];
        }
      }
      assert rules[j' + 1] == rest[j'];
  }

  /** A step depends only on its own rule's record. */
  lemma StepLocal(s1: Store, s2: Store, name: string, key: string, element: string, rule: Rule)
    requires At(s1, HitKey(name, key, rule.name)) == At(s2, HitKey(name, key, rule.name))
    ensures var r1 := Step(s1, name, key, element, rule);
            var r2 := Step(s2, name, key, element, rule);
            r1.Continue? == r2.Continue? && ReplyOf(r1) == ReplyOf(r2) &&
            At(r1.store, HitKey(name, key, rule.name)) == At(r2.store, HitKey(name, key, rule.name))
  {
  }

  /**
   * A run depends only on the records of its rules: from two stores that agree on them it
   * gives the same reply and leaves the two stores agreeing on them again.
   */
  lemma {:induction false} EvalLocal(s1: Store, s2: Store, name: string, key: string, element: string, rules: seq<Rule>)
    requires forall j :: 0 <= j < |rules| ==>
               At(s1, HitKey(name, key, rules[j].name)) == At(s2, HitKey(name, key, rules[j].name))
    ensures var r1 := Eval(s1, name, key, element, rules);
            var r2 := Eval(s2, name, key, element, rules);
            r1.Continue? == r2.Continue? && ReplyOf(r1) == ReplyOf(r2) &&
            forall j :: 0 <= j < |rules| ==>
              At(r1.store, HitKey(name, key, rules[j].name)) == At(r2.store, HitKey(name, key, rules[j].name))
    decreases |rules|
  {
    if rules != [] {
      var k0 := HitKey(name, key, rules[0].name);
      StepLocal(s1, s2, name, key, element, rules[0]);
      var t1 := Step(s1, name, key, element, rules[0]);
      var t2 := Step(s2, name, key, element, rules[0]);
      forall j | 0 <= j < |rules|
        ensures At(t1.store, HitKey(name, key, rules[j].name)) == At(t2.store, HitKey(name, key, rules[j].name))
      {
        if HitKey(name, key, rules[j].name) != k0 {
          StepFrame(s1, name, key, element, rules[0], HitKey(name, key, rules[j].name));
          StepFrame(s2, name, key, element, rules[0], HitKey(name, key, rules[j].name));
        }
      }
      if t1.Continue? {
        var rest := rules[1..];
        EvalLocal(t1.store, t2.store, name, key, element, rest);
        var e1 := Eval(t1.store, name, key, element, rest);
        var e2 := Eval(t2.store, name, key, element, rest);
        forall j | 0 <= j < |rules|
          ensures At(e1.store, HitKey(name, key, rules[j].name)) == At(e2.store, HitKey(name, key, rules[j].name))
        {
          var kj := HitKey(name, key, rules[j].name);
          if Untouched(kj, name, key, rest) {
            EvalFrame(t1.store, name, key, element, rest, kj);
            EvalFrame(t2.store, name, key, element, rest, kj);
          } else {
            var m :| 0 <= m < |rest| && kj == HitKey(name, key, rest[m].name);
          }
        }
      }
    }
  }

  /** Every record the limiter writes sits under the namespace prefix. */
  predicate LimiterRecordsOnly(s: Store) {
    forall k :: k in s ==> |Prefix| <= |k| && k[..|Prefix|] == Prefix
  }

  /** The script creates no key outside the namespace: its rule keys all carry the prefix. */
  lemma EvalKeepsNamespace(s: Store, name: string, key: string, element: string, rules: seq<Rule>)
    requires LimiterRecordsOnly(s)
    ensures LimiterRecordsOnly(Eval(s, name, key, element, rules).store)
  {
    var s' := Eval(s, name, key, element, rules).store;
    forall k | k in s' ensures |Prefix| <= |k| && k[..|Prefix|] == Prefix {
      if Untouched(k, name, key, rules) {
        EvalFrame(s, name, key, element, rules, k);
        assert k in s;
      } else {
        var j :| 0 <= j < |rules| && k == HitKey(name, key, rules[j].name);
        assert k == Prefix + (name + ":" + key + ":" + rules[j].name);
      }
    }
  }
}

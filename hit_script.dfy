/**
 * The `hit` script the limiter installs in the store (main.js lines 9-93).
 * The store runs it atomically: one call of RunHit is one indivisible step.
 * Its argument list is ARGV: limiter name, key, element ("" for counter mode),
 * then one quadruple (rule name, limit, window ttl, block ttl) per rule.
 */
module HitScript {
  import opened Wrappers
  import opened RedisStore

  /** The namespace the script and `reset` put in front of every record key. */
  const Prefix: string := "@limiter:"

  /** One entry of the flat argument list. */
  datatype Arg = Text(s: string) | Int(n: int)

  /** One rule as the script reads it from a quadruple. */
  datatype Rule = Rule(name: string, limit: int, ttl: int, ttlBlock: int)

  /** The script's reply: the empty table, a (rule name, ttl) pair, or the error a command raised. */
  datatype ScriptReply = Empty | Pair(limitName: string, ttl: int) | Failed(error: StoreError)

  /** How far evaluation of the rules got: through all of them, or stopped with a reply. */
  datatype Run = Continue(store: Store) | Stop(store: Store, reply: ScriptReply)

  /** `<prefix><limiter name>:<key>:<rule name>` */
  function RecordKey(prefix: string, name: string, key: string, limitName: string): (k: string)
    ensures |prefix| <= |k| && k[..|prefix|] == prefix
  {
    prefix + name + ":" + key + ":" + limitName
  }

  /** The key the script uses for a rule's record; it lies in the limiter's namespace. */
  function HitKey(name: string, key: string, limitName: string): (k: string)
    ensures |Prefix| <= |k| && k[..|Prefix|] == Prefix
  {
    RecordKey(Prefix, name, key, limitName)
  }

  /** For one limiter and key, different rule names give different record keys. */
  lemma RecordKeyInjective(prefix: string, name: string, key: string, a: string, b: string)
    requires RecordKey(prefix, name, key, a) == RecordKey(prefix, name, key, b)
    ensures a == b
  {
    var base := prefix + name + ":" + key + ":";
    assert RecordKey(prefix, name, key, a) == base + a && RecordKey(prefix, name, key, b) == base + b;
    assert a == (base + a)[|base|..];
    assert b == (base + b)[|base|..];
  }

  /** Rule names are unique, as the keys of the configuration object are. */
  predicate DistinctNames(rules: seq<Rule>) {
    forall i, j :: 0 <= i < j < |rules| ==> rules[i].name != rules[j].name
  }

  function Quad(r: Rule): seq<Arg> {
    [Text(r.name), Int(r.limit), Int(r.ttl), Int(r.ttlBlock)]
  }

  /** The argument list after the first three entries is a sequence of well-formed quadruples. */
  predicate Quads(a: seq<Arg>)
    decreases |a|
  {
    |a| == 0 || (|a| >= 4 && a[0].Text? && a[1].Int? && a[2].Int? && a[3].Int? && Quads(a[4..]))
  }

  /** The rules the loop `for i = 4, #ARGV, 4` visits, in order. */
  function RulesOf(a: seq<Arg>): (rules: seq<Rule>)
    requires Quads(a)
    ensures 4 * |rules| == |a|
    ensures forall j :: 0 <= j < |rules| ==> Quad(rules[j]) == a[4 * j .. 4 * j + 4]
    decreases |a|
  {
    if |a| == 0 then [] else [Rule(a[0].s, a[1].n, a[2].n, a[3].n)] + RulesOf(a[4..])
  }

  predicate ScriptArgs(argv: seq<Arg>) {
    |argv| >= 3 && argv[0].Text? && argv[1].Text? && argv[2].Text? && Quads(argv[3..])
  }

  /** What happens once the new counter or cardinality is known (main.js lines 55-89). */
  function Settle(s: Store, k: string, valueNew: int, rule: Rule): (r: Run)
    ensures r.Stop? <==> valueNew > rule.limit
    ensures r.Stop? ==> r.reply == Pair(rule.name, TtlAt(r.store, k)) && IsMarker(r.store, k)
  {
    if valueNew > rule.limit then
      var blocked := SetKeepTtl(s, k, Blocked);
      if rule.ttlBlock > 0 then Stop(ExpireAt(blocked, k, rule.ttlBlock), Pair(rule.name, rule.ttlBlock))
      else Stop(blocked, Pair(rule.name, TtlAt(blocked, k)))
    else if valueNew == 1 then Continue(ExpireAt(s, k, rule.ttl))
    else Continue(s)
  }

  /** One pass of the loop body for one rule (main.js lines 15-89). */
  function Step(s: Store, name: string, key: string, element: string, rule: Rule): (r: Run)
    ensures r.Stop? && r.reply.Pair? ==>
              r.reply.limitName == rule.name && IsMarker(r.store, HitKey(name, key, rule.name))
  {
    var k := HitKey(name, key, rule.name);
    if IsMarker(s, k) then Stop(s, Pair(rule.name, TtlAt(s, k)))
    else if element == "" then
      match IncrAt(s, k)
      case Err(e) => Stop(s, Failed(e))
      case Ok(w) => Settle(w.store, k, w.reply, rule)
    else
      match SAddAt(s, k, element)
      case Err(e) => Stop(s, Failed(e))
      case Ok(w) =>
        if w.reply == 0 then Stop(w.store, Empty)
        else Settle(w.store, k, SCardAt(w.store, k), rule)
  }

  /** The whole loop: the rules in order, until one of them stops it. */
  function Eval(s: Store, name: string, key: string, element: string, rules: seq<Rule>): (r: Run)
    ensures r.Stop? && r.reply.Pair? ==>
              IsMarker(r.store, HitKey(name, key, r.reply.limitName)) &&
              exists j :: 0 <= j < |rules| && rules[j].name == r.reply.limitName
    decreases |rules|
  {
    if rules == [] then Continue(s)
    else match Step(s, name, key, element, rules[0])
      case Continue(s') => Eval(s', name, key, element, rules[1..])
      case Stop(s', reply) => Stop(s', reply)
  }

  /** What the script returns: `return {}` after the loop, or the reply it stopped with. */
  function ReplyOf(run: Run): ScriptReply {
    match run
    case Continue(_) => Empty
    case Stop(_, reply) => reply
  }

  /** The script body, one store command at a time. */
  method RunHit(client: Client, argv: seq<Arg>) returns (reply: ScriptReply)
    requires ScriptArgs(argv)
    modifies client
    ensures var run := Eval(old(client.data), argv[0].s, argv[1].s, argv[2].s, RulesOf(argv[3..]));
            client.data == run.store && reply == ReplyOf(run)
  {
    var name, key, element := argv[0].s, argv[1].s, argv[2].s;
    ghost var goal := Eval(client.data, name, key, element, RulesOf(argv[3..]));
    var i := 3;
    while i < |argv|
      invariant 3 <= i <= |argv| && Quads(argv[i..])
      invariant Eval(client.data, name, key, element, RulesOf(argv[i..])) == goal
      decreases |argv| - i
    {
      assert argv[i..][4..] == argv[i + 4..];
      ghost var rule := Rule(argv[i].s, argv[i + 1].n, argv[i + 2].n, argv[i + 3].n);
      assert RulesOf(argv[i..]) == [rule] + RulesOf(argv[i + 4..]);
      var limitName := argv[i].s;
      var limitValue := argv[i + 1].n;
      var redisKey := HitKey(name, key, limitName);

      var value := client.Get(redisKey);
      if value == Some(Blocked) {
        var ttl := client.Ttl(redisKey);
        return Pair(limitName, ttl);
      }

      var valueNew := 0;
      if element == "" {
        var incremented := client.Incr(redisKey);
        if incremented.Err? {
          return Failed(incremented.error);
        }
        valueNew := incremented.value;
      } else {
        var added := client.SAdd(redisKey, element);
        if added.Err? {
          return Failed(added.error);
        }
        if added.value == 0 {
          return Empty;
        }
        valueNew := client.SCard(redisKey);
      }

      if valueNew > limitValue {
        client.Set(redisKey, Blocked);
        var ttlBlock := argv[i + 3].n;
        if ttlBlock > 0 {
          client.Expire(redisKey, ttlBlock);
          return Pair(limitName, ttlBlock);
        } else {
          var ttl := client.Ttl(redisKey);
          return Pair(limitName, ttl);
        }
      } else if valueNew == 1 {
        client.Expire(redisKey, argv[i + 2].n);
      }
      i := i + 4;
    }
    return Empty;
  }
}

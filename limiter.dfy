/**
 * The RedisLimiter class (main.js lines 4-188): its configuration, built once by the
 * constructor, and the three calls `hit`, `check` and `reset` against the shared store.
 */
module Limiter {
  import opened Wrappers
  import opened RedisStore
  import opened HitScript

  /** A violation callback, known here only by the text String() gives for it. */
  datatype Listener = Listener(source: string)

  /** One entry of the configuration object: `{ limit, ttl, ttl_block, onError }`. */
  datatype LimitConfig = LimitConfig(limit: int, ttl: int, ttlBlock: Option<int>, onError: Option<Listener>)

  /** How a call of `hit` or `check` ends. */
  datatype Outcome =
    | Passed
    | LimitExceeded(limitName: string, ttl: int)  // the rule's onError was called with ttl, then LIMIT_EXCEEDED was thrown
    | ListenerMissing(limitName: string)          // the rule has no onError: calling it throws a TypeError instead
    | StoreFailed(error: StoreError)              // the store's error, passed through

  /** The quadruple a configuration entry contributes, with a missing ttl_block read as 0. */
  function RuleOf(entry: (string, LimitConfig)): Rule {
    Rule(entry.0, entry.1.limit, entry.1.ttl, entry.1.ttlBlock.GetOr(0))
  }

  /** Rule names in configuration order. */
  function Names(limits: seq<(string, LimitConfig)>): (names: seq<string>)
    ensures |names| == |limits|
  {
    seq(|limits|, i requires 0 <= i < |limits| => limits[i].0)
  }

  function NamesOfRules(rules: seq<Rule>): (names: seq<string>)
    ensures |names| == |rules|
  {
    seq(|rules|, i requires 0 <= i < |rules| => rules[i].name)
  }

  /** The flat argument list: four entries per rule, in configuration order. */
  function Flatten(limits: seq<(string, LimitConfig)>): (args: seq<Arg>)
    ensures |args| == 4 * |limits|
    decreases |limits|
  {
    if limits == [] then [] else Quad(RuleOf(limits[0])) + Flatten(limits[1..])
  }

  /** The configuration object's keys are unique, so no two entries share a name. */
  predicate DistinctEntries(limits: seq<(string, LimitConfig)>) {
    forall i, j :: 0 <= i < j < |limits| ==> limits[i].0 != limits[j].0
  }

  /** The listener table after one `set` per entry in order: a later entry for a name wins. */
  function ListenerMap(limits: seq<(string, LimitConfig)>): (table: map<string, Option<Listener>>)
    ensures table.Keys == set i | 0 <= i < |limits| :: limits[i].0
    decreases |limits|
  {
    if limits == [] then map[]
    else ListenerMap(limits[..|limits| - 1])[limits[|limits| - 1].0 := limits[|limits| - 1].1.onError]
  }

  /** Calling the violated rule's listener with the TTL, then throwing (main.js lines 145-150, 164-169). */
  function Violation(listeners: map<string, Option<Listener>>, limitName: string, ttl: int): (o: Outcome)
    ensures o != Passed && !o.StoreFailed?
    ensures o.LimitExceeded? <==> limitName in listeners && listeners[limitName].Some?
    ensures o.LimitExceeded? ==> o == LimitExceeded(limitName, ttl)
    ensures o.ListenerMissing? ==> o == ListenerMissing(limitName)
  {
    if limitName in listeners && listeners[limitName].Some? then LimitExceeded(limitName, ttl)
    else ListenerMissing(limitName)
  }

  /** What `hit` makes of the script's reply: only a reply whose first entry is a name is a violation. */
  function Raise(listeners: map<string, Option<Listener>>, reply: ScriptReply): (o: Outcome)
    ensures o == Passed <==> reply == Empty
    ensures o.StoreFailed? <==> reply.Failed?
    ensures o.LimitExceeded? <==>
              reply.Pair? && reply.limitName in listeners && listeners[reply.limitName].Some?
    ensures o.LimitExceeded? ==> o == LimitExceeded(reply.limitName, reply.ttl)
  {
    match reply
    case Empty => Passed
    case Pair(limitName, ttl) => Violation(listeners, limitName, ttl)
    case Failed(e) => StoreFailed(e)
  }

  /** The record keys of the named rules under a prefix, in order. */
  function RuleKeys(prefix: string, name: string, key: string, names: seq<string>): (keys: seq<string>)
    ensures |keys| == |names|
    ensures forall i :: 0 <= i < |names| ==> keys[i] == RecordKey(prefix, name, key, names[i])
  {
    seq(|names|, i requires 0 <= i < |names| => RecordKey(prefix, name, key, names[i]))
  }

  /** The position of the first key whose record is the blocked marker. */
  function FirstMarker(s: Store, keys: seq<string>): (r: Option<nat>)
    ensures r.Some? ==> r.value < |keys| && IsMarker(s, keys[r.value]) &&
                        forall j :: 0 <= j < r.value ==> !IsMarker(s, keys[j])
    ensures r.None? ==> forall j :: 0 <= j < |keys| ==> !IsMarker(s, keys[j])
    decreases |keys|
  {
    if keys == [] then None
    else if IsMarker(s, keys[0]) then Some(0)
    else match FirstMarker(s, keys[1..])
      case None => None
      case Some(i) => Some(i + 1)
  }

  /**
   * The decision `check` takes on a store: the first rule, in order, whose record under
   * `prefix` is the marker is reported with that record's TTL.
   */
  function CheckSpec(s: Store, prefix: string, name: string, key: string, names: seq<string>,
                     listeners: map<string, Option<Listener>>): (o: Outcome)
    ensures o == Passed <==> forall i :: 0 <= i < |names| ==> !IsMarker(s, RecordKey(prefix, name, key, names[i]))
    ensures !o.StoreFailed?
  {
    match FirstMarker(s, RuleKeys(prefix, name, key, names))
    case None => Passed
    case Some(i) => Violation(listeners, names[i], TtlAt(s, RecordKey(prefix, name, key, names[i])))
  }

  /** What String() gives for a listener table entry `[name, onError]`: the two joined by a comma. */
  function EntryText(limitName: string, onError: Option<Listener>): (text: string)
    ensures |limitName| < |text| && text[..|limitName|] == limitName && text[|limitName|] == ','
  {
    limitName + "," + (match onError case Some(f) => f.source case None => "")
  }

  /**
   * The keys `reset` deletes: the records of the given names, or, with no names, one key
   * per listener table entry, built from the entry's text rather than from its name.
   */
  function ResetKeys(name: string, key: string, names: Option<seq<string>>,
                     listeners: map<string, Option<Listener>>): (keys: set<string>)
    ensures forall k :: k in keys ==> |Prefix| <= |k| && k[..|Prefix|] == Prefix
  {
    match names
    case Some(ns) => set j | 0 <= j < |ns| :: HitKey(name, key, ns[j])
    case None => set n | n in listeners :: HitKey(name, key, EntryText(n, listeners[n]))
  }

  /** The keys `reset` is meant to delete: with no names, the records of every configured rule. */
  function IntendedResetKeys(name: string, key: string, names: Option<seq<string>>, limitNames: seq<string>): set<string> {
    var ns := names.GetOr(limitNames);
    set j | 0 <= j < |ns| :: HitKey(name, key, ns[j])
  }

  class RedisLimiter {
    const client: Client
    const name: string
    const limitNames: seq<string>
    const limitArgs: seq<Arg>
    const listeners: map<string, Option<Listener>>

    /** The argument list is well formed and its names are `limitNames`. */
    ghost predicate Valid() {
      Quads(limitArgs) && limitNames == NamesOfRules(RulesOf(limitArgs))
    }

    /** The rules `hit` evaluates, in order. */
    function Rules(): seq<Rule>
      requires Valid()
    {
      RulesOf(limitArgs)
    }

    constructor (client: Client, name: string, limits: seq<(string, LimitConfig)>)
      ensures this.client == client && this.name == name
      ensures limitNames == Names(limits) && limitArgs == Flatten(limits)
      ensures listeners == ListenerMap(limits)
      ensures Valid() && Rules() == seq(|limits|, i requires 0 <= i < |limits| => RuleOf(limits[i]))
      ensures DistinctEntries(limits) ==>
                DistinctNames(Rules()) &&
                forall i :: 0 <= i < |limits| ==> listeners[limits[i].0] == limits[i].1.onError
    {
      var names: seq<string> := [];
      var args: seq<Arg> := [];
      var table: map<string, Option<Listener>> := map[];
      for i := 0 to |limits|
        invariant names == Names(limits[..i])
        invariant args == Flatten(limits[..i])
        invariant table == ListenerMap(limits[..i])
      {
        var (limitName, config) := limits[i];
        names := names + [limitName];
        FlattenSnoc(limits[..i], limits[i]);
        args := args + [Text(limitName), Int(config.limit), Int(config.ttl), Int(config.ttlBlock.GetOr(0))];
        table := table[limitName := config.onError];
        assert limits[..i + 1] == limits[..i] + [limits[i]];
        assert limits[..i + 1][..i] == limits[..i];
      }
      assert limits[..|limits|] == limits;
      FlattenRules(limits);
      if DistinctEntries(limits) {
        ListenerMapDistinct(limits);
      }
      this.client := client;
      this.name := name;
      limitNames := names;
      limitArgs := args;
      listeners := table;
    }

    /** `hit(key, element)`: one atomic run of the script, then the wrapper's reading of its reply. */
    method Hit(key: string, element: Option<string>) returns (outcome: Outcome)
      requires Valid()
      modifies client
      ensures var run := Eval(old(client.data), name, key, element.GetOr(""), Rules());
              client.data == run.store && outcome == Raise(listeners, ReplyOf(run))
    {
      var argv := [Text(name), Text(key), Text(element.GetOr(""))] + limitArgs;
      assert argv[3..] == limitArgs;
      var reply := RunHit(client, argv);
      match reply
      case Pair(limitName, ttl) =>
        outcome := Violation(listeners, limitName, ttl);
      case Failed(e) =>
        outcome := StoreFailed(e);
      case Empty =>
        outcome := Passed;
    }

    /** `check(key)`, which builds its keys without the namespace prefix. */
    method Check(key: string) returns (outcome: Outcome)
      ensures outcome == CheckSpec(client.data, "", name, key, limitNames, listeners)
    {
      outcome := CheckUnder("", key);
    }

    /** `check(key)` as meant: the keys carry the prefix `hit` writes them under. */
    method CheckIntended(key: string) returns (outcome: Outcome)
      ensures outcome == CheckSpec(client.data, Prefix, name, key, limitNames, listeners)
    {
      outcome := CheckUnder(Prefix, key);
    }

    /** The body of `check` for keys under `prefix`: one MULTI of GET/TTL pairs, read back two by two. */
    method CheckUnder(prefix: string, key: string) returns (outcome: Outcome)
      ensures outcome == CheckSpec(client.data, prefix, name, key, limitNames, listeners)
    {
      var queued: seq<Command> := [];
      for i := 0 to |limitNames|
        invariant |queued| == 2 * i
        invariant forall j :: 0 <= j < i ==>
                    queued[2 * j] == GetCommand(RecordKey(prefix, name, key, limitNames[j])) &&
                    queued[2 * j + 1] == TtlCommand(RecordKey(prefix, name, key, limitNames[j]))
      {
        var redisKey := RecordKey(prefix, name, key, limitNames[i]);
        queued := queued + [GetCommand(redisKey), TtlCommand(redisKey)];
      }
      var result := client.Exec(queued);
      ghost var keys := RuleKeys(prefix, name, key, limitNames);
      var ix := 0;
      ghost var half := 0;
      while ix < |result|
        invariant ix == 2 * half && 0 <= half <= |limitNames|
        invariant forall j :: 0 <= j < half ==> !IsMarker(client.data, keys[j])
        decreases |result| - ix
      {
        assert result[2 * half] == Bulk(ValueAt(client.data, keys[half]));
        assert result[2 * half + 1] == Integer(TtlAt(client.data, keys[half]));
        var value := result[ix];
        if value == Bulk(Some(Blocked)) {
          assert ix / 2 == half;
          var limitName := limitNames[ix / 2];
          var ttl := result[ix + 1].n;
          assert FirstMarker(client.data, keys) == Some(half);
          outcome := Violation(listeners, limitName, ttl);
          return;
        }
        ix := ix + 2;
        half := half + 1;
      }
      outcome := Passed;
    }

    /** The set of record keys of the given names; the loop that fills a Set. */
    method CollectKeys(key: string, ns: seq<string>) returns (keys: set<string>)
      ensures keys == set j | 0 <= j < |ns| :: HitKey(name, key, ns[j])
    {
      keys := {};
      for i := 0 to |ns|
        invariant keys == set j | 0 <= j < i :: HitKey(name, key, ns[j])
      {
        keys := keys + {HitKey(name, key, ns[i])};
      }
    }

    /** `reset(key, limit_names)`; without names it walks the listener table, entry by entry. */
    method Reset(key: string, names: Option<seq<string>>)
      modifies client
      ensures client.data == DelKeys(old(client.data), ResetKeys(name, key, names, listeners))
    {
      var keysToDelete: set<string>;
      match names {
        case Some(ns) =>
          keysToDelete := CollectKeys(key, ns);
        case None =>
          keysToDelete := {};
          var rest := listeners.Keys;
          while rest != {}
            invariant rest <= listeners.Keys
            invariant keysToDelete ==
                      set n | n in listeners.Keys - rest :: HitKey(name, key, EntryText(n, listeners[n]))
            decreases rest
          {
            var n :| n in rest;
            keysToDelete := keysToDelete + {HitKey(name, key, EntryText(n, listeners[n]))};
            rest := rest - {n};
          }
          assert listeners.Keys - rest == listeners.Keys;
      }
      assert keysToDelete == ResetKeys(name, key, names, listeners);
      if |keysToDelete| > 0 {
        client.Del(keysToDelete);
      }
    }

    /** `reset` as meant: without names it deletes the record of every configured rule. */
    method ResetIntended(key: string, names: Option<seq<string>>)
      modifies client
      ensures client.data == DelKeys(old(client.data), IntendedResetKeys(name, key, names, limitNames))
    {
      var keysToDelete := CollectKeys(key, names.GetOr(limitNames));
      if |keysToDelete| > 0 {
        client.Del(keysToDelete);
      }
    }
  }

  /** With unique names, each name's table entry is that entry's own onError. */
  lemma {:induction false} ListenerMapDistinct(limits: seq<(string, LimitConfig)>)
    requires DistinctEntries(limits)
    ensures forall i :: 0 <= i < |limits| ==> ListenerMap(limits)[limits[i].0] == limits[i].1.onError
    decreases |limits|
  {
    if limits != [] {
      var init := limits[..|limits| - 1];
      assert DistinctEntries(init) by {
        forall i, j | 0 <= i < j < |init| ensures init[i].0 != init[j].0 {
          assert init[i] == limits[i] && init[j] == limits[j];
        }
      }
      ListenerMapDistinct(init);
      forall i | 0 <= i < |limits| - 1 ensures ListenerMap(limits)[limits[i].0] == limits[i].1.onError {
        assert init[i] == limits[i];
        assert limits[i].0 != limits[|limits| - 1].0;
      }
    }
  }

  lemma {:induction false} FlattenSnoc(limits: seq<(string, LimitConfig)>, entry: (string, LimitConfig))
    ensures Flatten(limits + [entry]) == Flatten(limits) + Quad(RuleOf(entry))
    decreases |limits|
  {
    if limits == [] {
      assert [entry][1..] == [];
    } else {
      assert (limits + [entry])[0] == limits[0];
      assert (limits + [entry])[1..] == limits[1..] + [entry];
      FlattenSnoc(limits[1..], entry);
    }
  }

  /** The argument list the constructor builds decodes, quadruple by quadruple, to the configured rules. */
  lemma {:induction false} FlattenRules(limits: seq<(string, LimitConfig)>)
    ensures Quads(Flatten(limits))
    ensures RulesOf(Flatten(limits)) == seq(|limits|, i requires 0 <= i < |limits| => RuleOf(limits[i]))
    ensures NamesOfRules(RulesOf(Flatten(limits))) == Names(limits)
    decreases |limits|
  {
    if limits != [] {
      FlattenRules(limits[1..]);
      var f := Flatten(limits);
      assert f[4..] == Flatten(limits[1..]);
    }
  }
}

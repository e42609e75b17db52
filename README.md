# redis-limiter, modelled in Dafny

A model of `RedisLimiter` (main.js), a rate limiter that keeps its state in a shared Redis store. One limiter has a name and an ordered set of rules. Each rule has a name, a `limit`, a window `ttl` and an optional `ttl_block`. For a key (a user, an IP) each rule owns one record, stored under `@limiter:<limiter name>:<key>:<rule name>`. The record is either a counter, a set of distinct elements, or the blocked marker `"x"`.

- `hit(key, element?)` runs one store-side script atomically. The script visits the rules in order and counts the request against each: INCR in counter mode, or SADD then SCARD in element mode. It stops early at a blocked record, at an element already seen, or at the first rule whose limit is exceeded; that rule's record becomes the marker. The wrapper calls the violated rule's `onError` with the TTL, then throws `LIMIT_EXCEEDED`.
- `check(key)` reads every rule's value and TTL in one MULTI. It fails on the first record that is the marker.
- `reset(key, names?)` deletes a de-duplicated set of record keys with a single DEL.

The modules follow that structure:

- `wrappers.dfy` (`Wrappers`): `Option` and `Result`.
- `redis_store.dfy` (`RedisStore`): records with TTLs, each Redis command as a function on the store map, and the `Client` class whose `data` field is the store. Each command is a method of `Client`.
- `hit_script.dfy` (`HitScript`): the flat argument list, record keys (`RecordKey`, which `check` uses without a prefix and the script and `reset` use under `@limiter:`), the per-rule step `Step` and the whole loop `Eval` as specification functions. `RunHit` is the script's loop as a method, proved equal to `Eval`.
- `hit_script_facts.dfy` (`HitScriptFacts`): what one script run does, rule by rule.
- `limiter.dfy` (`Limiter`):
  - the `RedisLimiter` class, with its constructor loop, `Hit`, `Check` and `Reset`;
  - the functions that specify them;
  - the corrected `CheckIntended` and `ResetIntended`.
- `limiter_facts.dfy` (`LimiterFacts`): the configuration layout, facts about `reset` and `check`, and the two findings below.

Redis semantics are written out in the model:
- INCR fails past 2^63-1.
- INCR or SADD on a record of the other kind fails with WRONGTYPE. The script stops there and keeps the writes it has already made.
- EXPIRE with a non-positive time deletes the key.
- TTL answers -1 for a key without expiry and -2 for a missing key.
- DEL with no keys is refused.

The library's documentation describes some behaviour that its code does not have. The model follows the code:
- The documentation says the constructor rejects malformed rules. The code validates nothing, and neither does the model.
- The documentation says a rule without `onError` skips the callback. In the code, `.call` on `undefined` throws a TypeError instead of `LIMIT_EXCEEDED`; this is the `ListenerMissing` outcome.
- An element `""` means counter mode.
- A limit of 0 with no block TTL blocks forever, because the window TTL is never started (see `FreshWindow`).

`check` has no `modifies` clause, so its frame alone shows that it does not change the store.

## Model

| member | source | states |
|---|---|---|
| `HitScript.RulesOf` | main.js:14-16 | the script loop visits one rule per quadruple: four arguments per rule, and rule j is read from quadruple j |
| `HitScript.RecordKey` | main.js:130 | definition: `<prefix><limiter name>:<key>:<rule name>`; the key begins with its prefix |
| `HitScript.HitKey` | main.js:18 | definition: the record key under `@limiter:`; every such key lies in the limiter's namespace |
| `HitScript.RecordKeyInjective` | main.js:18 | for one limiter and key, two rule names with the same record key are the same name, so no two rules share a record |
| `HitScript.Settle` | main.js:55-89 | definition: the step after the new value is known. It stops exactly when the value exceeds the limit; the record then holds the marker and the reply is the rule's name with that record's TTL |
| `HitScript.Step` | main.js:15-89 | definition: one pass of the loop body for one rule. A `(name, ttl)` reply names this rule and leaves its record as the marker |
| `HitScript.Eval` | main.js:14-92 | definition: the rules in order, until one stops the loop. A `(name, ttl)` reply names one of the rules, and that rule's record is left as the marker |
| `HitScript.RunHit` | main.js:9-93 | the script, one store command at a time, leaves exactly the store that `Eval` gives for the rules in order and returns `Eval`'s reply (empty table, `(name, ttl)`, or the command's error) |
| `HitScriptFacts.Compose` | main.js:14-90 | the rules are evaluated in order: running a + b is running a, then b from the store a left, unless a stopped, in which case b is not run at all |
| `HitScriptFacts.EvalFrame` | main.js:18 | a run changes no record other than those of its own rules |
| `HitScriptFacts.BlockedStops` | main.js:20-32 | when the rules before rule i let the request through and rule i's record is the marker, the script replies `(rule i's name, that record's TTL)`, and rule i's record and every later rule's record stay as they were |
| `HitScriptFacts.CountingRun` | main.js:34-89 | when no rule stops the script, each rule's counter rose by exactly 1 (or its set gained the element), the result is within the limit, the TTL was set to the window exactly when the new value is 1, and it was kept otherwise |
| `HitScriptFacts.ExceedBlocks` | main.js:55-82 | when the new value exceeds the limit, the record becomes the marker. Its TTL is kept, or replaced by a positive `ttl_block`. The reply is `(name, ttl_block)` or `(name, current TTL)`, and the store is otherwise the one the earlier rules left, so no later rule is touched |
| `HitScriptFacts.ElementSeen` | main.js:41-48 | with an element that is already in rule i's set, the script replies with the empty table at once: no later rule is evaluated and that set is unchanged |
| `HitScriptFacts.FreshWindow` | main.js:34-89 | for a fresh key and one counter-mode rule with limit N, hits 1..N reply empty and leave the counter at the number of hits under the window TTL; hit N+1 and every later hit reply with the rule's name, and the record stays the marker; no other record changes |
| `HitScriptFacts.StopWitness` | main.js:24-82 | a run that replies `(name, ttl)` leaves that rule's record as the marker with exactly that TTL, and no earlier rule's record is the marker |
| `HitScriptFacts.EvalLocal` | main.js:14-90 | a run depends only on its rules' records: two stores that agree on them give the same reply and still agree on them afterwards |
| `HitScriptFacts.EvalKeepsNamespace` | main.js:18 | a store whose keys all carry the `@limiter:` prefix keeps that property after a run |
| `Limiter.Violation` | main.js:164-169 | a violated rule with a listener gives `LimitExceeded(rule, ttl)` (listener called with ttl, then `LIMIT_EXCEEDED`); without one it gives the TypeError outcome; the result is never a pass |
| `Limiter.Raise` | main.js:156-170 | `hit` passes exactly when the script replied with the empty table, fails with the store's error exactly when the script failed, and throws `LIMIT_EXCEEDED` for `(name, ttl)` exactly when the reply's first entry is a name whose listener exists |
| `Limiter.FirstMarker` | main.js:138-141 | the position found is the first key whose record is the marker; there is none exactly when no record is the marker |
| `Limiter.CheckSpec` | main.js:138-152 | `check` passes exactly when no rule's record is the marker; otherwise it reports the first such rule in `_limit_names` order, with that record's TTL |
| `Limiter.Flatten` | main.js:110-117 | definition: the flat argument list, four entries per rule in configuration order, so four times as long as the configuration |
| `Limiter.ListenerMap` | main.js:119-122 | definition: the table after one `set` per entry in order; its keys are exactly the configured names |
| `Limiter.ListenerMapDistinct` | main.js:119-122 | when the configured names are unique, the table maps every configured name to that entry's own `onError` |
| `Limiter.EntryText` | main.js:176-178 | definition: the text a listener table entry gives as a string, the rule name followed by a comma and the listener's text |
| `Limiter.ResetKeys` | main.js:174-180 | definition: the keys `reset` deletes. With names, the record of each name; without names, one key per listener table entry, built from `EntryText`. Every key lies in the limiter's namespace |
| `Limiter.FlattenRules` | main.js:101-117 | the flat argument list decodes, quadruple by quadruple, to the configured rules in order, and its names are `_limit_names` |
| `Limiter.RedisLimiter.constructor` | main.js:96-123 | the name list, the flat argument list and the name-to-listener table are built in `Object.entries` order, and the resulting configuration is well formed. Entries have unique names, as the keys of an object do, so the rules have unique names too and each name's table entry is that rule's own `onError` |
| `Limiter.RedisLimiter.Hit` | main.js:155-171 | one atomic run of the script on all rules with `element ?? ''`; the store becomes the script's result and the outcome is the wrapper's reading of the reply |
| `Limiter.RedisLimiter.CheckUnder` | main.js:127-152 | the MULTI of GET/TTL pairs, read two entries at a time and paired with name `ix / 2`, gives exactly `CheckSpec` for the store |
| `Limiter.RedisLimiter.Check` | main.js:126-153 | `check` as written: `CheckSpec` for keys built without the prefix |
| `Limiter.RedisLimiter.CheckIntended` | main.js:126-153 | `check` with the prefix `hit` uses: `CheckSpec` for the records `hit` writes |
| `Limiter.RedisLimiter.CollectKeys` | main.js:174-180 | the loop that fills the Set yields exactly the de-duplicated set of prefixed keys of the given names |
| `Limiter.RedisLimiter.Reset` | main.js:173-187 | the store loses exactly the keys of `ResetKeys` and nothing else; DEL is issued only with at least one key |
| `Limiter.RedisLimiter.ResetIntended` | main.js:173-187 | with no names, deletes the record of every configured rule and nothing else |
| `LimiterFacts.FlattenLayout` | main.js:110-117 | the argument list has 4 entries per rule: entry 4i is the i-th name of `_limit_names`, followed by its limit, its window TTL and its `ttl_block`, which is 0 when missing |
| `LimiterFacts.ResetExactly` | main.js:173-187 | with explicit names, a named rule's record is gone after `reset` and every other rule's record is as it was |
| `LimiterFacts.ResetAllMissesRecords` | main.js:176-179 | `reset(key)` without names, as written, deletes no configured rule's record (for rule names without a comma) |
| `LimiterFacts.ResetAllFresh` | main.js:173-187 | `reset(key)` as meant removes every configured rule's record, and the next hit then gives the same reply and records as for a key never seen |
| `LimiterFacts.CheckSeesNothing` | main.js:130 | `check` as written passes on every store that holds only the limiter's own records, provided the limiter's name does not start with `@` |
| `LimiterFacts.CheckMissesBlock` | main.js:130 | right after a hit that fails, `check` as written still passes |
| `LimiterFacts.CheckConfirmsBlock` | main.js:126-152 | right after a hit that fails with `(name, ttl)`, `check` with the prefix fails identically: same rule, same TTL, same listener outcome |
| `LimiterFacts.FreshKeyHits` | main.js:155-170 | for a fresh key and one rule with limit N and a listener, the first N `hit` calls pass and every later one throws `LIMIT_EXCEEDED` naming that rule |

## Left out

- The Redis client itself is not modelled: `createScript`, script loading, the MULTI/EXEC transport, connections and async/await. The store is the `data` map of `Client`. Each command and each script run is one synchronous step.
- Concurrency between processes is not modelled. Redis runs a script atomically, so one `hit` is one indivisible call of `RunHit`.
- Wall-clock expiry is not modelled: TTLs do not count down. `Client.Lapse` is the explicit event of a record reaching the end of its TTL. After it, the key is fresh again and `FreshWindow` applies.
- The errors from mixing modes on one key are only partly modelled. They appear as WRONGTYPE failures inside the script. In `check`, a GET on a set record is read as "not the marker". A client that rejects the whole EXEC instead is not modelled, so `check` never yields `StoreFailed`.
- User `onError` callbacks are not modelled as code. A call is represented by the `LimitExceeded(rule, ttl)` outcome. A callback that itself throws, and the fields of the JS `Error` object, are not modelled.
- Lua's and JavaScript's string-to-number conversions (`tonumber`) are not modelled. Limits and TTLs are integers in the argument list.
- How `Object.entries` orders keys (integer-like keys first) is not modelled. The constructor takes the entries in the order it gives.
- Listener functions are not modelled as code. Each is the text `String()` gives for it, which is all that `reset` without names uses.

## Findings

| source | as written | input that shows it | evidently intended | confidence | as-written member | corrected member |
|---|---|---|---|---|---|---|
| main.js:130 | `check` looks up `<name>:<key>:<rule>`, without the `@limiter:` prefix under which the script writes every record | rule `perMinute` `{limit: 3, ttl: 60}`: four `hit(k)` calls, the fourth throws; then `check(k)` passes although `@limiter:<name>:k:perMinute` holds `"x"` | `check` reads the prefixed keys and fails like the hit did, with the same rule and TTL | high, not executed | `LimiterFacts.CheckMissesBlock` | `LimiterFacts.CheckConfirmsBlock` |
| main.js:176 | `reset(key)` without names iterates the listener `Map`, which yields `[name, onError]` pairs, so each key becomes `@limiter:<name>:<key>:<rule>,<listener text>` | rule `perMinute` without `onError`, after one `hit(k)`: `reset(k)` deletes `@limiter:<name>:k:perMinute,` and the counter under `@limiter:<name>:k:perMinute` survives | iterate the rule names, deleting every configured rule's record | high, not executed | `LimiterFacts.ResetAllMissesRecords` | `LimiterFacts.ResetAllFresh` |

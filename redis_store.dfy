/**
 * The key-value store the limiter talks to, reduced to what the limiter uses:
 * string counters (INCR), sets (SADD/SCARD), the blocked marker string "x"
 * (SET ... KEEPTTL), expiry (EXPIRE/TTL) and deletion (DEL).
 * Every command is a pure function on the store map; the Client class holds
 * the map and runs one command per method call.
 */
module RedisStore {
  import opened Wrappers

  /** INCR works on signed 64-bit integers and refuses to go past this value. */
  const MaxCounter: int := 0x7FFF_FFFF_FFFF_FFFF

  /** What TTL answers for a key that exists but has no expiry. */
  const NoExpiry: int := -1
  /** What TTL answers for a key that does not exist. */
  const NoKey: int := -2

  datatype Value =
    | Counter(count: int)              // a string holding an integer, as INCR leaves it
    | Members(elements: set<string>)   // a set, as SADD leaves it
    | Blocked                          // the string "x"

  /** A stored value and its remaining time to live in seconds (NoExpiry when none). */
  datatype Record = Record(value: Value, ttl: int)

  type Store = map<string, Record>

  datatype StoreError =
    | WrongType      // a command applied to a value of the other kind
    | NotAnInteger   // INCR of a string that is not an integer
    | Overflow       // INCR past MaxCounter

  /** New store and integer reply of a writing command. */
  datatype Written = Written(store: Store, reply: int)

  /** The record under k, if any. */
  function At(s: Store, k: string): Option<Record> {
    if k in s then Some(s[k]) else None
  }

  /** GET; the error GET gives on a set is never the marker, so it reads as that set. */
  function ValueAt(s: Store, k: string): Option<Value> {
    if k in s then Some(s[k].value) else None
  }

  predicate IsMarker(s: Store, k: string) {
    ValueAt(s, k) == Some(Blocked)
  }

  /** TTL */
  function TtlAt(s: Store, k: string): int {
    if k in s then s[k].ttl else NoKey
  }

  /** INCR: an absent key counts from 0 and gets no expiry; the TTL of an existing key is kept. */
  function IncrAt(s: Store, k: string): Result<Written, StoreError> {
    if k !in s then Ok(Written(s[k := Record(Counter(1), NoExpiry)], 1))
    else match s[k].value
      case Counter(n) =>
        if n >= MaxCounter then Err(Overflow)
        else Ok(Written(s[k := s[k].(value := Counter(n + 1))], n + 1))
      case Members(_) => Err(WrongType)
      case Blocked => Err(NotAnInteger)
  }

  /** SADD of one element: replies 1 when it was added and 0 when it was already there. */
  function SAddAt(s: Store, k: string, e: string): Result<Written, StoreError> {
    if k !in s then Ok(Written(s[k := Record(Members({e}), NoExpiry)], 1))
    else match s[k].value
      case Members(m) =>
        if e in m then Ok(Written(s, 0))
        else Ok(Written(s[k := s[k].(value := Members(m + {e}))], 1))
      case _ => Err(WrongType)
  }

  /** SCARD */
  function SCardAt(s: Store, k: string): int {
    if k in s && s[k].value.Members? then |s[k].value.elements| else 0
  }

  /** SET k v KEEPTTL */
  function SetKeepTtl(s: Store, k: string, v: Value): Store {
    s[k := Record(v, if k in s then s[k].ttl else NoExpiry)]
  }

  /** EXPIRE: a non-positive time deletes the key; a missing key is left missing. */
  function ExpireAt(s: Store, k: string, seconds: int): Store {
    if k !in s then s
    else if seconds <= 0 then s - {k}
    else s[k := s[k].(ttl := seconds)]
  }

  /** DEL of several keys at once. */
  function DelKeys(s: Store, keys: set<string>): Store {
    s - keys
  }

  /** A command queued inside MULTI, and its reply from EXEC. */
  datatype Command = GetCommand(key: string) | TtlCommand(key: string)
  datatype Reply = Bulk(value: Option<Value>) | Integer(n: int)

  function Answer(s: Store, c: Command): Reply {
    match c
    case GetCommand(k) => Bulk(ValueAt(s, k))
    case TtlCommand(k) => Integer(TtlAt(s, k))
  }

  /** The store a limiter instance is connected to. */
  class Client {
    var data: Store

    constructor (initial: Store)
      ensures data == initial
    {
      data := initial;
    }

    method Get(k: string) returns (v: Option<Value>)
      ensures v == ValueAt(data, k)
    {
      v := ValueAt(data, k);
    }

    method Ttl(k: string) returns (t: int)
      ensures t == TtlAt(data, k)
    {
      t := TtlAt(data, k);
    }

    method SCard(k: string) returns (n: int)
      ensures n == SCardAt(data, k)
    {
      n := SCardAt(data, k);
    }

    method Incr(k: string) returns (r: Result<int, StoreError>)
      modifies this
      ensures match IncrAt(old(data), k)
        case Ok(w) => data == w.store && r == Ok(w.reply)
        case Err(e) => data == old(data) && r == Err(e)
    {
      match IncrAt(data, k)
      case Ok(w) =>
        data := w.store;
        r := Ok(w.reply);
      case Err(e) =>
        r := Err(e);
    }

    method SAdd(k: string, e: string) returns (r: Result<int, StoreError>)
      modifies this
      ensures match SAddAt(old(data), k, e)
        case Ok(w) => data == w.store && r == Ok(w.reply)
        case Err(err) => data == old(data) && r == Err(err)
    {
      match SAddAt(data, k, e)
      case Ok(w) =>
        data := w.store;
        r := Ok(w.reply);
      case Err(err) =>
        r := Err(err);
    }

    method Set(k: string, v: Value)
      modifies this
      ensures data == SetKeepTtl(old(data), k, v)
    {
      data := SetKeepTtl(data, k, v);
    }

    method Expire(k: string, seconds: int)
      modifies this
      ensures data == ExpireAt(old(data), k, seconds)
    {
      data := ExpireAt(data, k, seconds);
    }

    /** DEL; the store refuses a DEL without keys. */
    method Del(keys: set<string>)
      requires keys != {}
      modifies this
      ensures data == DelKeys(old(data), keys)
    {
      data := DelKeys(data, keys);
    }

    /** EXEC of a MULTI block holding only reads: one reply per command, in order. */
    method Exec(queued: seq<Command>) returns (replies: seq<Reply>)
      ensures |replies| == |queued|
      ensures forall j :: 0 <= j < |queued| ==> replies[j] == Answer(data, queued[j])
    {
      replies := [];
      for j := 0 to |queued|
        invariant |replies| == j
        invariant forall i :: 0 <= i < j ==> replies[i] == Answer(data, queued[i])
      {
        replies := replies + [Answer(data, queued[j])];
      }
    }

    /** The passing of time: the record under k reaches the end of its TTL and disappears. */
    method Lapse(k: string)
      requires k in data && data[k].ttl != NoExpiry
      modifies this
      ensures data == old(data) - {k}
    {
      data := data - {k};
    }
  }
}

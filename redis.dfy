/** The part of a Redis server the product store uses: a keyspace of hashes
    and the commands HGETALL, KEYS, HMSET, DEL and HINCRBY. */
module Redis {
  import opened Wrappers
  import Text

  /** A hash field. Redis keeps bytes; the model keeps the type the writer
      gave the field: an integer, or text that is not an integer. */
  datatype Value = Str(text: string) | Int(number: int)

  type Hash = map<string, Value>

  type Store = map<string, Hash>

  /** HGETALL: the hash at `key`, or the empty hash when the key is absent. */
  function HashAt(db: Store, key: string): Hash
  {
    if key in db then db[key] else map[]
  }

  /** Redis deletes a hash once its last field is gone, so no key maps to an empty hash. */
  predicate NoEmptyHashes(db: Store)
  {
    forall k :: k in db ==> db[k] != map[]
  }

  /** The integer HINCRBY starts from: 0 for a missing field, None when the field holds text. */
  function CounterAt(h: Hash, field: string): Option<int>
  {
    if field !in h then Some(0)
    else match h[field]
      case Int(n) => Some(n)
      case Str(_) => None
  }

  /** Glob matching as KEYS does it, for patterns whose only wildcard is `*`;
      a pattern without `*` matches only itself. */
  function Match(pattern: string, s: string): (r: bool)
    ensures '*' !in pattern ==> (r <==> s == pattern)
    decreases |pattern| + |s|
  {
    if pattern == [] then s == []
    else if pattern[0] == '*' then Match(pattern[1..], s) || (s != [] && Match(pattern, s[1..]))
    else s != [] && s[0] == pattern[0] && Match(pattern[1..], s[1..])
  }

  lemma {:induction false} StarMatchesAll(s: string)
    ensures Match("*", s)
  {
    if s != [] {
      StarMatchesAll(s[1..]);
    }
  }

  /** `literal*` matches exactly the keys that begin with `literal`. */
  lemma {:induction false} MatchPrefixPattern(literal: string, s: string)
    requires '*' !in literal
    ensures Match(literal + "*", s) <==> Text.HasPrefix(literal, s)
  {
    if literal == [] {
      StarMatchesAll(s);
      assert literal + "*" == "*";
    } else {
      var p := literal + "*";
      assert p[0] == literal[0] && p[1..] == literal[1..] + "*";
      if s != [] && s[0] == literal[0] {
        MatchPrefixPattern(literal[1..], s[1..]);
        assert Text.HasPrefix(literal, s) <==> Text.HasPrefix(literal[1..], s[1..]);
      }
    }
  }

  datatype Error =
    /** HINCRBY on a field whose value is not an integer. */
    | NotAnInteger(key: string, field: string)

  /** A connection to the server; `data` is the whole keyspace. */
  class Client {
    var data: Store

    ghost predicate Valid()
      reads this
    {
      NoEmptyHashes(data)
    }

    constructor (initial: Store)
      requires NoEmptyHashes(initial)
      ensures Valid() && data == initial
    {
      data := initial;
    }

    method HGetAll(key: string) returns (h: Hash)
      requires Valid()
      ensures h == map[] <==> key !in data
      ensures key in data ==> h == data[key]
    {
      h := HashAt(data, key);
    }

    /** KEYS pattern: every matching key once, in an order the server chooses. */
    method Keys(pattern: string) returns (ks: seq<string>)
      ensures forall i, j :: 0 <= i < j < |ks| ==> ks[i] != ks[j]
      ensures forall k :: k in ks <==> k in data && Match(pattern, k)
    {
      ks := [];
      var rest := data.Keys;
      while rest != {}
        invariant rest <= data.Keys
        invariant forall i, j :: 0 <= i < j < |ks| ==> ks[i] != ks[j]
        invariant forall k :: k in ks ==> k in data && k !in rest && Match(pattern, k)
        invariant forall k :: k in data && Match(pattern, k) ==> k in ks || k in rest
        decreases rest
      {
        var k :| k in rest;
        if Match(pattern, k) {
          ks := ks + [k];
        }
        rest := rest - {k};
      }
    }

    /** HMSET key fields: sets the given fields and keeps the hash's other fields. */
    method HMSet(key: string, fields: Hash)
      requires Valid() && fields != map[]
      modifies this
      ensures Valid()
      ensures data == old(data)[key := HashAt(old(data), key) + fields]
    {
      data := data[key := HashAt(data, key) + fields];
    }

    /** DEL key: the number of keys removed. */
    method Del(key: string) returns (removed: int)
      requires Valid()
      modifies this
      ensures Valid()
      ensures removed == if key in old(data) then 1 else 0
      ensures data == old(data) - {key}
    {
      removed := if key in data then 1 else 0;
      data := data - {key};
    }

    /** HINCRBY key field delta: a missing key or field counts as 0; the new value is returned. */
    method HIncrBy(key: string, field: string, delta: int) returns (r: Result<int, Error>)
      requires Valid()
      modifies this
      ensures Valid()
      ensures CounterAt(HashAt(old(data), key), field).None? <==> r.Err?
      ensures r.Err? ==> r.error == NotAnInteger(key, field) && data == old(data)
      ensures r.Ok? ==>
                && r.value == CounterAt(HashAt(old(data), key), field).value + delta
                && data == old(data)[key := HashAt(old(data), key)[field := Int(r.value)]]
    {
      var h := HashAt(data, key);
      var current := CounterAt(h, field);
      if current.None? {
        return Err(NotAnInteger(key, field));
      }
      r := Ok(current.value + delta);
      data := data[key := h[field := Int(r.value)]];
    }
  }
}

/**
 * The Redis version of the shortener (begs.rb): the key allocator, shorten,
 * expand and hit counting over a key-value store held in a field.
 *
 * All entries live in one namespace, "begs::url:":
 *   "begs::url:" + suffix          -> Payload(url, created)   a short link
 *   "begs::url:" + suffix + ".count" -> Count(n)              its hit counter
 *   "begs::url:" + url             -> Text(full key)          the reverse index
 */
module Begs {
  import opened Wrappers
  import opened Ruby
  import opened Base36
  import opened Resolver
  import opened Probing

  const Namespace := "begs::url:"

  /** A custom key must be shorter than this. */
  const CustomKeyLimit := 32

  /** What a Redis entry holds; the link payload is JSON text in the store. */
  datatype Value = Payload(url: string, created: nat) | Count(n: nat) | Text(s: string)

  /** The string Redis GET returns for an entry. */
  function AsString(v: Value): string
  {
    match v
    case Payload(url, created) => "{\"url\":\"" + url + "\",\"created\":" + Decimal(created) + "}"
    case Count(n) => Decimal(n)
    case Text(s) => s
  }

  function Lookup(store: map<string, Value>, key: string): Option<Value>
  {
    if key in store then Some(store[key]) else None
  }

  /** `key.split(/:/)[3]`: the part of a full key handed back to callers. */
  function BareKey(key: string): Outcome
  {
    SplitAt(key, 3)
  }

  /** `gen_rand_key`: a draw taken below 36^power and rendered in base 36 under the namespace. */
  function Candidate(draw: nat, power: nat): (r: string)
    ensures |r| > |Namespace| && r[..|Namespace|] == Namespace
    ensures var suffix := r[|Namespace|..]; AllDigits(suffix) && ':' !in suffix
  {
    assert (Namespace + Encode(draw % Pow(Radix, power)))[|Namespace|..] == Encode(draw % Pow(Radix, power));
    Namespace + Encode(draw % Pow(Radix, power))
  }

  /**
   * `new_key` from candidate j on, over a finite supply of draws: the first
   * candidate not already taken, or None once the draws run out (the loop
   * of the source would go on drawing).
   */
  function Allocate(draws: seq<nat>, j: nat, taken: set<string>): (r: Option<string>)
    ensures r.Some? ==> r.value !in taken
    decreases |draws| - j
  {
    if j >= |draws| then None
    else
      var c := Candidate(draws[j], Schedule(j).power);
      if c in taken then Allocate(draws, j + 1, taken) else Some(c)
  }

  /** A key from `Allocate` is the first candidate from j on that is free: every one before it was taken. */
  lemma {:induction false} AllocateFirstFree(draws: seq<nat>, j: nat, taken: set<string>)
    requires Allocate(draws, j, taken).Some?
    ensures exists i {:trigger draws[i]} ::
      (j <= i < |draws| && Allocate(draws, j, taken).value == Candidate(draws[i], Schedule(i).power) &&
       forall i' {:trigger draws[i']} :: j <= i' < i ==> Candidate(draws[i'], Schedule(i').power) in taken)
    decreases |draws| - j
  {
    if Candidate(draws[j], Schedule(j).power) in taken {
      AllocateFirstFree(draws, j + 1, taken);
    }
  }

  /** `Allocate` finds nothing exactly when every candidate drawn from j on is taken. */
  lemma {:induction false} AllocateExhausted(draws: seq<nat>, j: nat, taken: set<string>)
    ensures Allocate(draws, j, taken).None? <==>
      forall i {:trigger draws[i]} :: j <= i < |draws| ==> Candidate(draws[i], Schedule(i).power) in taken
    decreases |draws| - j
  {
    if j < |draws| {
      AllocateExhausted(draws, j + 1, taken);
    }
  }

  /** The key `shorten` uses: the custom key when it qualifies, otherwise a random one. */
  function ChooseKey(store: map<string, Value>, rkey: Option<string>, draws: seq<nat>): Option<string>
  {
    if rkey.Some? && |rkey.value| < CustomKeyLimit && Namespace + rkey.value !in store
    then Some(Namespace + rkey.value)
    else Allocate(draws, 0, store.Keys)
  }

  /** The three writes of a new link, in order. */
  function Record(store: map<string, Value>, key: string, url: string, created: nat): map<string, Value>
  {
    store[key := Payload(url, created)][key + ".count" := Count(0)][Namespace + url := Text(key)]
  }

  datatype Shortened = Shortened(reply: Outcome, store: map<string, Value>)

  /** `shorten(url, rkey)`: its reply and the store it leaves. */
  function ShortenSpec(store: map<string, Value>, url: string, rkey: Option<string>, now: nat,
                       net: Net, draws: seq<nat>): Shortened
  {
    if Namespace + url in store then Shortened(BareKey(AsString(store[Namespace + url])), store)
    else match Ping(url, PingLimit, net)
      case Str(u) =>
        if Namespace + u in store then Shortened(BareKey(AsString(store[Namespace + u])), store)
        else
          (match ChooseKey(store, rkey, draws)
           case None => Shortened(Diverges, store)
           case Some(key) => Shortened(BareKey(key), Record(store, key, u, now)))
      case Raises => Shortened(Raises, store)
      case _ => Shortened(Nil, store)
  }

  /** `INCR key`: a missing entry counts from 0; a non-integer entry is an error that changes nothing. */
  function IncrStore(store: map<string, Value>, key: string): (r: map<string, Value>)
    ensures r.Keys == store.Keys + {key}
    ensures forall k :: k in store && k != key ==> r[k] == store[k]
  {
    if key !in store then store[key := Count(1)]
    else match store[key]
      case Count(n) => store[key := Count(n + 1)]
      case _ => store
  }

  /** `inc_hit_count(key)`: bump the counter of an existing link, else nothing. */
  function HitSpec(store: map<string, Value>, key: string): map<string, Value>
  {
    if Namespace + key in store then IncrStore(store, Namespace + key + ".count") else store
  }

  /** `do_expand(key)`: the stored payload's URL, 404 for an unknown key, 500 when the entry is not a payload. */
  function Expanded(store: map<string, Value>, key: string): Expansion
  {
    match Lookup(store, Namespace + key)
    case None => NotFound
    case Some(Payload(url, _)) => Found(url)
    case Some(_) => Fails
  }

  /** `Application`, reduced to the store it keeps in `@redis`. */
  class Application {
    var store: map<string, Value>

    constructor (initial: map<string, Value>)
      ensures store == initial
    {
      store := initial;
    }

    method Exists(key: string) returns (b: bool)
      ensures b <==> key in store
    {
      b := key in store;
    }

    method Get(key: string) returns (v: Option<Value>)
      ensures v.Some? <==> key in store
      ensures v.Some? ==> v.value == store[key]
    {
      v := if key in store then Some(store[key]) else None;
    }

    method Set(key: string, v: Value)
      modifies this
      ensures store == old(store)[key := v]
    {
      store := store[key := v];
    }

    method Incr(key: string)
      modifies this
      ensures store == IncrStore(old(store), key)
    {
      if key !in store {
        store := store[key := Count(1)];
      } else if store[key].Count? {
        store := store[key := Count(store[key].n + 1)];
      }
    }

    /** `new_key`: probe random candidates, widening the key space every ten misses. */
    method NewKey(draws: seq<nat>) returns (key: Option<string>)
      ensures key == Allocate(draws, 0, store.Keys)
    {
      if |draws| == 0 {
        return None;
      }
      var i, power := 0, 2;
      var k := Candidate(draws[0], power);
      var j := 1;
      var taken := Exists(k);
      while taken
        invariant 1 <= j <= |draws|
        invariant Tally(i, power) == Schedule(j - 1)
        invariant k == Candidate(draws[j - 1], power)
        invariant taken <==> k in store
        invariant Allocate(draws, 0, store.Keys) == Allocate(draws, j - 1, store.Keys)
        decreases |draws| - j
      {
        if j == |draws| {
          return None;
        }
        if i >= ProbesPerPower {
          i := 0;
          power := power + 1;
        }
        k := Candidate(draws[j], power);
        i := i + 1;
        j := j + 1;
        taken := Exists(k);
      }
      key := Some(k);
    }

    /** `shorten(url, rkey)` with the creation time, the network and the random draws as inputs. */
    method Shorten(url: string, rkey: Option<string>, now: nat, net: Net, draws: seq<nat>) returns (r: Outcome)
      modifies this
      ensures Shortened(r, store) == ShortenSpec(old(store), url, rkey, now, net, draws)
    {
      var hit := Get(Namespace + url);
      if hit.Some? {
        return BareKey(AsString(hit.value));
      }
      var u := Ping(url, PingLimit, net);
      if !u.Str? {
        return if u.Raises? then Raises else Nil;
      }
      var known := Get(Namespace + u.s);
      if known.Some? {
        return BareKey(AsString(known.value));
      }
      var key: Option<string> := None;
      if rkey.Some? && |rkey.value| < CustomKeyLimit {
        var taken := Exists(Namespace + rkey.value);
        if !taken {
          key := Some(Namespace + rkey.value);
        }
      }
      if key.None? {
        key := NewKey(draws);
      }
      if key.None? {
        return Diverges;
      }
      Set(key.value, Payload(u.s, now));
      Set(key.value + ".count", Count(0));
      Set(Namespace + u.s, Text(key.value));
      r := BareKey(key.value);
    }

    /** `expand(key)`: the entry under the namespaced key, nil when absent. */
    method Expand(key: string) returns (v: Option<Value>)
      ensures v == Lookup(store, Namespace + key)
    {
      v := Get(Namespace + key);
    }

    /** `do_expand(key)`. */
    method DoExpand(key: string) returns (e: Expansion)
      ensures e == Expanded(store, key)
    {
      var v := Expand(key);
      if v.None? {
        return NotFound;
      }
      e := if v.value.Payload? then Found(v.value.url) else Fails;
    }

    /** `inc_hit_count(key)`. */
    method IncHitCount(key: string)
      modifies this
      ensures store == HitSpec(old(store), key)
    {
      var known := Exists(Namespace + key);
      if known {
        Incr(Namespace + key + ".count");
      }
    }
  }
}

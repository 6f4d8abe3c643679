/**
 * The older Tokyo Tyrant version of the shortener (main.rb): one table
 * holding both url -> key and key -> url, a probe loop whose condition is
 * inverted, and expand.
 */
module Legacy {
  import opened Wrappers
  import opened Ruby
  import opened Base36
  import opened Resolver
  import opened Probing

  /** `rand(base ** power).to_s(base)`: a bare base-36 key. */
  function Candidate(draw: nat, power: nat): (r: string)
    ensures AllDigits(r) && Decode(r) == draw % Pow(Radix, power)
  {
    DecodeEncode(draw % Pow(Radix, power));
    Encode(draw % Pow(Radix, power))
  }

  /**
   * The probe loop as written, from candidate j on: it stops at the first
   * candidate that is ALREADY in the table, or never (None) when the draws
   * run out first.
   */
  function FirstTaken(draws: seq<nat>, j: nat, taken: set<string>): (r: Option<string>)
    ensures r.Some? ==> r.value in taken
    decreases |draws| - j
  {
    if j >= |draws| then None
    else
      var c := Candidate(draws[j], Schedule(j).power);
      if c !in taken then FirstTaken(draws, j + 1, taken) else Some(c)
  }

  /** The loop as written stops at the first candidate from j on that is taken: every one before it was free. */
  lemma {:induction false} FirstTakenIsFirst(draws: seq<nat>, j: nat, taken: set<string>)
    requires FirstTaken(draws, j, taken).Some?
    ensures exists i {:trigger draws[i]} ::
      (j <= i < |draws| && FirstTaken(draws, j, taken).value == Candidate(draws[i], Schedule(i).power) &&
       forall i' {:trigger draws[i']} :: j <= i' < i ==> Candidate(draws[i'], Schedule(i').power) !in taken)
    decreases |draws| - j
  {
    if Candidate(draws[j], Schedule(j).power) !in taken {
      FirstTakenIsFirst(draws, j + 1, taken);
    }
  }

  /** The loop as written never stops exactly when no candidate drawn from j on is in the table. */
  lemma {:induction false} FirstTakenNever(draws: seq<nat>, j: nat, taken: set<string>)
    ensures FirstTaken(draws, j, taken).None? <==>
      forall i {:trigger draws[i]} :: j <= i < |draws| ==> Candidate(draws[i], Schedule(i).power) !in taken
    decreases |draws| - j
  {
    if j < |draws| {
      FirstTakenNever(draws, j + 1, taken);
    }
  }

  datatype Shortened = Shortened(reply: Outcome, db: map<string, string>)

  /** `shorten(url)` of main.rb: its reply and the table it leaves. */
  function ShortenSpec(db: map<string, string>, url: string, net: Net, draws: seq<nat>): Shortened
  {
    match LegacyPing(url, net)
    case Str(u) =>
      if u in db then Shortened(Str(db[u]), db)
      else
        (match FirstTaken(draws, 0, db.Keys)
         case None => Shortened(Diverges, db)
         case Some(key) => Shortened(Str(key), db[u := key][key := u]))
    case Raises => Shortened(Raises, db)
    case _ => Shortened(False, db)
  }

  /** `do_expand(key)` of main.rb. */
  function Expanded(db: map<string, string>, key: string): Expansion
  {
    if key == "" then Home
    else if key in db then Found(db[key])
    else NotFound
  }

  /** The Tokyo Tyrant table, reduced to its contents. */
  class Table {
    var db: map<string, string>

    constructor (initial: map<string, string>)
      ensures db == initial
    {
      db := initial;
    }

    method HasKey(key: string) returns (b: bool)
      ensures b <==> key in db
    {
      b := key in db;
    }

    method Get(key: string) returns (v: Option<string>)
      ensures v.Some? <==> key in db
      ensures v.Some? ==> v.value == db[key]
    {
      v := if key in db then Some(db[key]) else None;
    }

    method Put(key: string, value: string)
      modifies this
      ensures db == old(db)[key := value]
    {
      db := db[key := value];
    }

    /** The key loop of main.rb's `shorten`, condition as written: `while !db.has_key?(key)`. */
    method Probe(draws: seq<nat>) returns (key: Option<string>)
      ensures key == FirstTaken(draws, 0, db.Keys)
    {
      if |draws| == 0 {
        return None;
      }
      var i, power := 0, 2;
      var k := Candidate(draws[0], power);
      var j := 1;
      var present := HasKey(k);
      while !present
        invariant 1 <= j <= |draws|
        invariant Tally(i, power) == Schedule(j - 1)
        invariant k == Candidate(draws[j - 1], power)
        invariant present <==> k in db
        invariant FirstTaken(draws, 0, db.Keys) == FirstTaken(draws, j - 1, db.Keys)
        decreases |draws| - j
      {
        if j == |draws| {
          return None;
        }
        if i >= ProbesPerPower {
          i := 0;
          power := power + 1;
        }
        k := Candidate(draws[j], power);
        i := i + 1;
        j := j + 1;
        present := HasKey(k);
      }
      key := Some(k);
    }

    /** `shorten(url)` of main.rb, with the network and the random draws as inputs. */
    method Shorten(url: string, net: Net, draws: seq<nat>) returns (r: Outcome)
      modifies this
      ensures Shortened(r, db) == ShortenSpec(old(db), url, net, draws)
    {
      var u := LegacyPing(url, net);
      if u.Raises? {
        return Raises;
      }
      if !u.Str? {
        return False;
      }
      var known := HasKey(u.s);
      if !known {
        var key := Probe(draws);
        if key.None? {
          return Diverges;
        }
        Put(u.s, key.value);
        Put(key.value, u.s);
        r := Str(key.value);
      } else {
        var key := Get(u.s);
        r := Str(key.value);
      }
    }

    /** `expand(key)` of main.rb: `db.get(key)`, nil for an unknown key. */
    method Expand(key: string) returns (v: Option<string>)
      ensures v.Some? <==> key in db
      ensures v.Some? ==> v.value == db[key]
    {
      v := Get(key);
    }

    /** `do_expand(key)` of main.rb. */
    method DoExpand(key: string) returns (e: Expansion)
      ensures e == Expanded(db, key)
    {
      if key == "" {
        return Home;
      }
      var url := Expand(key);
      e := if url.None? then NotFound else Found(url.value);
    }
  }

  /**
   * The inverted loop only stops on a key already in the table, and the
   * following puts overwrite it: the link that key stood for now leads to
   * the new URL.
   */
  lemma ShortenOverwritesTakenKey(db: map<string, string>, url: string, net: Net, draws: seq<nat>)
    requires LegacyPing(url, net).Str? && LegacyPing(url, net).s !in db
    requires FirstTaken(draws, 0, db.Keys).Some?
    ensures var key := FirstTaken(draws, 0, db.Keys).value;
      var u := LegacyPing(url, net).s;
      var out := ShortenSpec(db, url, net, draws);
      && key in db
      && out.reply == Str(key)
      && out.db == db[u := key][key := u]
      && Expanded(out.db, key) == Found(u)
      && (db[key] != u ==> Expanded(out.db, key) != Expanded(db, key))
  {
    var key := FirstTaken(draws, 0, db.Keys).value;
    assert key != "" by {
      FirstTakenIsFirst(draws, 0, db.Keys);
      var i :| 0 <= i < |draws| && Candidate(draws[i], Schedule(i).power) == key;
    }
  }

  /** On a table holding no candidate key at all, a new URL sends the loop probing forever. */
  lemma ShortenDivergesWithoutKeys(db: map<string, string>, url: string, net: Net, draws: seq<nat>)
    requires LegacyPing(url, net).Str? && LegacyPing(url, net).s !in db
    requires forall k :: k in db ==> ':' in k
    ensures ShortenSpec(db, url, net, draws).reply == Diverges
  {
    FirstTakenNever(draws, 0, db.Keys);
  }

  /** A URL already in the table gets its stored key back and nothing is written. */
  lemma ShortenKnownUrl(db: map<string, string>, url: string, net: Net, draws: seq<nat>)
    requires LegacyPing(url, net).Str? && LegacyPing(url, net).s in db
    ensures ShortenSpec(db, url, net, draws) == Shortened(Str(db[LegacyPing(url, net).s]), db)
  {
  }

  /** A falsy `ping` makes `shorten` return false and touch nothing; an exception in `ping` escapes. */
  lemma ShortenUnresolved(db: map<string, string>, url: string, net: Net, draws: seq<nat>)
    requires !LegacyPing(url, net).Str?
    ensures ShortenSpec(db, url, net, draws).db == db
    ensures ShortenSpec(db, url, net, draws).reply == (if LegacyPing(url, net) == Raises then Raises else False)
  {
  }

  /** Shortening the same URL twice returns the same key and writes nothing the second time. */
  lemma ShortenIdempotent(db: map<string, string>, url: string, net: Net, draws: seq<nat>, draws': seq<nat>)
    requires ShortenSpec(db, url, net, draws).reply != Diverges
    ensures var first := ShortenSpec(db, url, net, draws);
      ShortenSpec(first.db, url, net, draws') == first
  {
  }

  /** Expanding the key a fresh `shorten` returns yields the URL it resolved. */
  lemma ExpandAfterShorten(db: map<string, string>, url: string, net: Net, draws: seq<nat>)
    requires LegacyPing(url, net).Str?
    requires ShortenSpec(db, url, net, draws).reply.Str?
    ensures Expanded(ShortenSpec(db, url, net, draws).db, ShortenSpec(db, url, net, draws).reply.s)
      == (if LegacyPing(url, net).s in db then Expanded(db, db[LegacyPing(url, net).s]) else Found(LegacyPing(url, net).s))
  {
    if LegacyPing(url, net).s !in db {
      ShortenOverwritesTakenKey(db, url, net, draws);
    }
  }
}

/**
 * What begs.rb's shorten, expand and hit counting promise, proved about the
 * functions that specify the methods of `Begs.Application`.
 */
module BegsProofs {
  import opened Wrappers
  import opened Ruby
  import opened Base36
  import opened Resolver
  import opened Begs
  import opened Probing

  /** `split(/:/)[3]` of a namespaced key gives back its suffix exactly when the suffix is non-empty and colon-free. */
  lemma BareKeyOfNamespaced(s: string)
    ensures ':' !in s ==> BareKey(Namespace + s) == (if s == "" then Nil else Str(s))
    ensures ':' in s ==> BareKey(Namespace + s) != Str(s)
  {
    assert Namespace + s == "begs" + ":" + ("" + ":" + ("url" + ":" + s));
    FieldsAfterColon("url", s);
    FieldsAfterColon("", "url" + ":" + s);
    FieldsAfterColon("begs", "" + ":" + ("url" + ":" + s));
    var f := Fields(Namespace + s);
    assert f == ["begs", "", "url"] + Fields(s);
    if ':' !in s {
      FieldsWithoutColon(s);
      assert f == ["begs", "", "url", s];
    } else {
      assert f[3] == Fields(s)[0];
    }
  }

  /** Every candidate is the namespace followed by at most `power` base-36 digits worth less than 36^power. */
  lemma CandidateShape(draw: nat, power: nat)
    requires power >= 1
    ensures Candidate(draw, power)[..|Namespace|] == Namespace
    ensures var suffix := Candidate(draw, power)[|Namespace|..];
      && AllDigits(suffix) && |suffix| <= power && Decode(suffix) < Pow(Radix, power)
      && BareKey(Candidate(draw, power)) == Str(suffix)
  {
    var n := draw % Pow(Radix, power);
    var suffix := Candidate(draw, power)[|Namespace|..];
    assert suffix == Encode(n);
    EncodeLength(n, power);
    DecodeEncode(n);
    BareKeyOfNamespaced(suffix);
  }

  /** The custom key is taken exactly when it is given, short enough and not yet in the store. */
  lemma CustomKeyHonoured(store: map<string, Value>, rkey: string, draws: seq<nat>)
    requires |rkey| < CustomKeyLimit
    ensures ChooseKey(store, Some(rkey), draws) == Some(Namespace + rkey) <==> Namespace + rkey !in store
  {
  }

  /** Whatever key `shorten` settles on was free in the store. */
  lemma ChosenKeyFree(store: map<string, Value>, rkey: Option<string>, draws: seq<nat>)
    requires ChooseKey(store, rkey, draws).Some?
    ensures ChooseKey(store, rkey, draws).value !in store
  {
  }

  /** Every key `shorten` settles on is the namespace plus a suffix it can hand back, colon-free. */
  lemma ChosenKeySuffix(store: map<string, Value>, rkey: Option<string>, draws: seq<nat>)
    requires rkey.None? || ':' !in rkey.value
    requires ChooseKey(store, rkey, draws).Some?
    ensures var key := ChooseKey(store, rkey, draws).value;
      |key| >= |Namespace| && key[..|Namespace|] == Namespace && ':' !in key[|Namespace|..]
  {
    var key := ChooseKey(store, rkey, draws).value;
    if !(rkey.Some? && |rkey.value| < CustomKeyLimit && Namespace + rkey.value !in store) {
      AllocateFirstFree(draws, 0, store.Keys);
      var i :| 0 <= i < |draws| && key == Candidate(draws[i], Schedule(i).power);
      CandidateShape(draws[i], Schedule(i).power);
    }
  }

  /** A miss on both lookups performs exactly the three writes, under a key that was free. */
  lemma ShortenWrites(store: map<string, Value>, url: string, rkey: Option<string>, now: nat,
                      net: Net, draws: seq<nat>, u: string, key: string)
    requires Namespace + url !in store
    requires Ping(url, PingLimit, net) == Str(u) && Namespace + u !in store
    requires ChooseKey(store, rkey, draws) == Some(key)
    ensures var out := ShortenSpec(store, url, rkey, now, net, draws);
      && out.reply == BareKey(key)
      && key !in store
      && out.store.Keys == store.Keys + {key, key + ".count", Namespace + u}
      && (forall k :: k in store && k != key && k != key + ".count" && k != Namespace + u ==> out.store[k] == store[k])
      && out.store[Namespace + u] == Text(key)
      && (key != Namespace + u ==> out.store[key] == Payload(u, now))
      && (key + ".count" != Namespace + u ==> out.store[key + ".count"] == Count(0))
  {
  }

  /** Nothing is written unless both lookups miss, `ping` resolves and a key is found. */
  lemma ShortenKeepsStore(store: map<string, Value>, url: string, rkey: Option<string>, now: nat,
                          net: Net, draws: seq<nat>)
    ensures var out := ShortenSpec(store, url, rkey, now, net, draws);
      out.store != store ==>
        && Namespace + url !in store
        && Ping(url, PingLimit, net).Str?
        && Namespace + Ping(url, PingLimit, net).s !in store
        && ChooseKey(store, rkey, draws).Some?
        && out.store == Record(store, ChooseKey(store, rkey, draws).value, Ping(url, PingLimit, net).s, now)
  {
  }

  /** A failed resolution escapes as an exception or ends in nil, and writes nothing. */
  lemma ShortenFailedPing(store: map<string, Value>, url: string, rkey: Option<string>, now: nat,
                          net: Net, draws: seq<nat>)
    requires Namespace + url !in store && !Ping(url, PingLimit, net).Str?
    ensures var out := ShortenSpec(store, url, rkey, now, net, draws);
      out.store == store && out.reply == (if Ping(url, PingLimit, net) == Raises then Raises else Nil)
  {
  }

  /**
   * Shortening the same URL again, with `ping` answering as before, returns
   * the same reply and writes nothing.  The hypothesis excludes the case
   * where the first call's key or counter entry landed on the raw URL's own
   * reverse-index entry (the namespaces are shared).
   */
  lemma ShortenIdempotent(store: map<string, Value>, url: string, rkey: Option<string>, rkey': Option<string>,
                          now: nat, now': nat, net: Net, draws: seq<nat>, draws': seq<nat>)
    requires ShortenSpec(store, url, rkey, now, net, draws).reply != Diverges
    requires var first := ShortenSpec(store, url, rkey, now, net, draws);
      Namespace + url in first.store && Namespace + url !in store ==> first.store[Namespace + url].Text?
    ensures var first := ShortenSpec(store, url, rkey, now, net, draws);
      ShortenSpec(first.store, url, rkey', now', net, draws') == first
  {
  }

  /** Expanding the key a fresh `shorten` hands back yields the canonical URL it stored. */
  lemma ExpandAfterShorten(store: map<string, Value>, url: string, rkey: Option<string>, now: nat,
                           net: Net, draws: seq<nat>, bare: string)
    requires rkey.None? || ':' !in rkey.value
    requires Namespace + url !in store
    requires Ping(url, PingLimit, net).Str? && Namespace + Ping(url, PingLimit, net).s !in store
    requires ShortenSpec(store, url, rkey, now, net, draws).reply == Str(bare)
    ensures Expanded(ShortenSpec(store, url, rkey, now, net, draws).store, bare) == Found(Ping(url, PingLimit, net).s)
  {
    var u := Ping(url, PingLimit, net).s;
    var key := ChooseKey(store, rkey, draws).value;
    ChosenKeySuffix(store, rkey, draws);
    var suffix := key[|Namespace|..];
    assert key == Namespace + suffix;
    BareKeyOfNamespaced(suffix);
    assert bare == suffix;
    PingResultHasColon(url, PingLimit, net);
    assert ':' in u && ':' !in suffix;
    assert key != Namespace + u by {
      assert u == (Namespace + u)[|Namespace|..];
    }
    ShortenWrites(store, url, rkey, now, net, draws, u, key);
  }

  /**
   * A custom key that qualifies is what `shorten` hands back; one already in
   * use is replaced by a random key, so the reply differs from it.
   */
  lemma ShortenCustomKey(store: map<string, Value>, url: string, rkey: string, now: nat,
                         net: Net, draws: seq<nat>)
    requires rkey != "" && ':' !in rkey && |rkey| < CustomKeyLimit
    requires Namespace + url !in store
    requires Ping(url, PingLimit, net).Str? && Namespace + Ping(url, PingLimit, net).s !in store
    requires ChooseKey(store, Some(rkey), draws).Some?
    ensures ShortenSpec(store, url, Some(rkey), now, net, draws).reply == Str(rkey) <==> Namespace + rkey !in store
  {
    var key := ChooseKey(store, Some(rkey), draws).value;
    ChosenKeySuffix(store, Some(rkey), draws);
    var suffix := key[|Namespace|..];
    assert key == Namespace + suffix;
    BareKeyOfNamespaced(suffix);
    BareKeyOfNamespaced(rkey);
    if Namespace + rkey in store {
      assert key != Namespace + rkey;
      assert suffix != rkey;
    }
  }

  /**
   * The shared namespace: a custom key equal to the canonical URL makes the
   * reverse-index write overwrite the link payload, so the link no longer
   * expands.
   */
  lemma ShortenCustomKeyClobbered(store: map<string, Value>, url: string, now: nat, net: Net, draws: seq<nat>)
    requires Namespace + url !in store
    requires Ping(url, PingLimit, net).Str?
    requires var u := Ping(url, PingLimit, net).s; Namespace + u !in store && |u| < CustomKeyLimit
    ensures var u := Ping(url, PingLimit, net).s;
      Expanded(ShortenSpec(store, url, Some(u), now, net, draws).store, u) == Fails
  {
  }

  /** `do_expand` answers 404 exactly for keys with no entry. */
  lemma ExpandUnknown(store: map<string, Value>, key: string)
    ensures Expanded(store, key) == NotFound <==> Namespace + key !in store
  {
  }

  /** `inc_hit_count` bumps the counter of a known link, leaves everything else, and ignores unknown keys. */
  lemma HitCount(store: map<string, Value>, key: string)
    ensures Namespace + key !in store ==> HitSpec(store, key) == store
    ensures forall k :: k in store && k != Namespace + key + ".count" ==> HitSpec(store, key)[k] == store[k]
    ensures Namespace + key in store ==>
      (Lookup(HitSpec(store, key), Namespace + key + ".count") ==
       match Lookup(store, Namespace + key + ".count")
       case None => Some(Count(1))
       case Some(Count(n)) => Some(Count(n + 1))
       case Some(v) => Some(v))
  {
  }
}

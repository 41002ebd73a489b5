/** The dedup claims in Redis: a key set by the first caller, for a day. */
module Dedup {
  import opened Events

  /** A claim key; `owner` is the call that set it, which Redis does not record. */
  datatype Claim = Claim(owner: nat, expires: nat)

  predicate Live<K>(claims: map<K, Claim>, key: K, now: nat) {
    key in claims && now < claims[key].expires
  }

  /** SET key 1 NX EX: takes the key unless it is live. */
  function SetNx<K>(claims: map<K, Claim>, key: K, owner: nat, now: nat): map<K, Claim> {
    if Live(claims, key, now) then claims else claims[key := Claim(owner, now + CLAIM_MS)]
  }

  /** What callers were told and did: a caller was first for a key, or gave it back. */
  datatype Deed = First(key: string, at: nat) | Freed(key: string)

  /** The caller of the i-th deed was first for the key, and it was not given back since. */
  ghost predicate Holds(deeds: seq<Deed>, i: nat, key: string) {
    && i < |deeds| && deeds[i].First? && deeds[i].key == key
    && Freed(key) !in deeds[i + 1..]
  }

  /** Somebody was first for the key less than a day before, and it was not given
      back since. */
  ghost predicate Taken(deeds: seq<Deed>, key: string, now: nat) {
    exists i: nat :: Holds(deeds, i, key) && now < deeds[i].at + CLAIM_MS
  }

  /** Between two callers that are first for a key the earlier claim has run out, or
      was given back. */
  ghost predicate Apart(deeds: seq<Deed>, i: nat, j: nat) {
    i < j < |deeds| && deeds[i].First? && deeds[j].First? && deeds[i].key == deeds[j].key &&
    Freed(deeds[i].key) !in deeds[i + 1..j] ==>
      deeds[i].at + CLAIM_MS <= deeds[j].at
  }

  /** The key that Redis keeps is that of the latest holder. */
  ghost predicate KeyAgrees(claims: map<string, Claim>, deeds: seq<Deed>, key: string) {
    && (key in claims ==> exists i: nat :: Holds(deeds, i, key) && claims[key].expires == deeds[i].at + CLAIM_MS)
    && (forall i: nat :: Holds(deeds, i, key) ==> key in claims && deeds[i].at + CLAIM_MS <= claims[key].expires)
  }

  ghost predicate Agrees(claims: map<string, Claim>, deeds: seq<Deed>) {
    forall key :: KeyAgrees(claims, deeds, key)
  }

  ghost predicate AllApart(deeds: seq<Deed>) {
    forall i: nat, j: nat :: Apart(deeds, i, j)
  }

  /** Who holds a key after one more deed. */
  lemma HoldsAfter(deeds: seq<Deed>, deed: Deed, key: string, i: nat)
    ensures Holds(deeds + [deed], i, key) <==>
            if i == |deeds| then deed.First? && deed.key == key else Holds(deeds, i, key) && deed != Freed(key)
  {
    if i < |deeds| {
      assert (deeds + [deed])[i + 1..] == deeds[i + 1..] + [deed];
    }
  }

  lemma TakenIsLive(claims: map<string, Claim>, deeds: seq<Deed>, key: string, now: nat)
    requires Agrees(claims, deeds)
    ensures Taken(deeds, key, now) <==> Live(claims, key, now)
  {
    assert KeyAgrees(claims, deeds, key);
  }

  lemma FirstAgrees(claims: map<string, Claim>, deeds: seq<Deed>, key: string, owner: nat, now: nat)
    requires Agrees(claims, deeds) && !Live(claims, key, now)
    ensures Agrees(claims[key := Claim(owner, now + CLAIM_MS)], deeds + [First(key, now)])
  {
    var after := claims[key := Claim(owner, now + CLAIM_MS)];
    forall k ensures KeyAgrees(after, deeds + [First(key, now)], k) {
      assert KeyAgrees(claims, deeds, k);
      forall i: nat ensures Holds(deeds + [First(key, now)], i, k) <==>
                            (if i == |deeds| then k == key else Holds(deeds, i, k)) {
        HoldsAfter(deeds, First(key, now), k, i);
      }
      if k == key {
        assert Holds(deeds + [First(key, now)], |deeds|, k);
      } else if k in claims {
        var i: nat :| Holds(deeds, i, k) && claims[k].expires == deeds[i].at + CLAIM_MS;
        assert Holds(deeds + [First(key, now)], i, k);
      }
    }
  }

  lemma FreedAgrees(claims: map<string, Claim>, deeds: seq<Deed>, key: string)
    requires Agrees(claims, deeds)
    ensures Agrees(claims - {key}, deeds + [Freed(key)])
  {
    forall k ensures KeyAgrees(claims - {key}, deeds + [Freed(key)], k) {
      assert KeyAgrees(claims, deeds, k);
      forall i: nat ensures Holds(deeds + [Freed(key)], i, k) <==> i != |deeds| && k != key && Holds(deeds, i, k) {
        HoldsAfter(deeds, Freed(key), k, i);
      }
      if k in claims && k != key {
        var i: nat :| Holds(deeds, i, k) && claims[k].expires == deeds[i].at + CLAIM_MS;
        assert Holds(deeds + [Freed(key)], i, k);
      }
    }
  }

  /** Nobody is first for a key that is taken, so that all stay apart. */
  lemma FirstApart(deeds: seq<Deed>, key: string, now: nat)
    requires AllApart(deeds) && !Taken(deeds, key, now)
    ensures AllApart(deeds + [First(key, now)])
  {
    var longer := deeds + [First(key, now)];
    forall i: nat, j: nat ensures Apart(longer, i, j) {
      assert Apart(deeds, i, j);
      if i < j < |deeds| {
        assert longer[i + 1..j] == deeds[i + 1..j];
      } else if i < j == |deeds| {
        assert longer[i + 1..j] == deeds[i + 1..];
        assert Holds(deeds, i, key) ==> deeds[i].at + CLAIM_MS <= now;
      }
    }
  }

  lemma FreedApart(deeds: seq<Deed>, key: string)
    requires AllApart(deeds)
    ensures AllApart(deeds + [Freed(key)])
  {
    var longer := deeds + [Freed(key)];
    forall i: nat, j: nat ensures Apart(longer, i, j) {
      assert Apart(deeds, i, j);
      if i < j < |deeds| {
        assert longer[i + 1..j] == deeds[i + 1..j];
      }
    }
  }

  /** Giving a key back frees it, at any time, and no other key. */
  lemma FreedTaken(deeds: seq<Deed>, key: string, other: string, now: nat)
    ensures Taken(deeds + [Freed(key)], other, now) <==> other != key && Taken(deeds, other, now)
  {
    forall i: nat ensures Holds(deeds + [Freed(key)], i, other) <==>
                          i != |deeds| && other != key && Holds(deeds, i, other) {
      HoldsAfter(deeds, Freed(key), other, i);
    }
    if other != key && Taken(deeds, other, now) {
      var i: nat :| Holds(deeds, i, other) && now < deeds[i].at + CLAIM_MS;
      assert Holds(deeds + [Freed(key)], i, other);
    }
  }

  /** The keys of one worker in Redis. */
  class Checker {
    var claims: map<string, Claim>
    ghost var deeds: seq<Deed>

    /** Redis keeps what the callers did; and between any two that were first for a
        key, the earlier claim ran out or was given back. */
    ghost predicate Valid()
      reads this
    {
      Agrees(claims, deeds) && AllApart(deeds)
    }

    constructor ()
      ensures Valid() && deeds == []
    {
      claims, deeds := map[], [];
    }

    /** Whether somebody was first for the key less than a day ago and has not
        given it back; if not, the caller is first. */
    method Seen(key: string, owner: nat, now: nat) returns (seen: bool)
      requires Valid()
      modifies this
      ensures Valid()
      ensures seen <==> Taken(old(deeds), key, now)
      ensures deeds == old(deeds) + if seen then [] else [First(key, now)]
      ensures claims == SetNx(old(claims), key, owner, now)
    {
      TakenIsLive(claims, deeds, key, now);
      if key in claims && now < claims[key].expires {
        return true;
      }
      FirstAgrees(claims, deeds, key, owner, now);
      FirstApart(deeds, key, now);
      claims := claims[key := Claim(owner, now + CLAIM_MS)];
      deeds := deeds + [First(key, now)];
      return false;
    }

    /** Afterwards the key is free for the next caller, and every other key as
        taken as before. */
    method Unclaim(key: string)
      requires Valid()
      modifies this
      ensures Valid() && deeds == old(deeds) + [Freed(key)] && claims == old(claims) - {key}
      ensures forall other, now :: Taken(deeds, other, now) <==> other != key && Taken(old(deeds), other, now)
    {
      FreedAgrees(claims, deeds, key);
      FreedApart(deeds, key);
      forall other, now: nat
        ensures Taken(deeds + [Freed(key)], other, now) <==> other != key && Taken(deeds, other, now)
      {
        FreedTaken(deeds, key, other, now);
      }
      claims := claims - {key};
      deeds := deeds + [Freed(key)];
    }
  }

  // ----- any sequence of checks -----

  /** A caller asking at a time whether the key was seen. */
  datatype Call<K> = Call(key: K, owner: nat, now: nat)

  function ClaimsAfter<K>(claims: map<K, Claim>, calls: seq<Call<K>>): map<K, Claim> {
    if calls == [] then claims
    else
      var c := calls[|calls| - 1];
      SetNx(ClaimsAfter(claims, calls[..|calls| - 1]), c.key, c.owner, c.now)
  }

  /** Call i was told that it is the first. */
  predicate Wins<K>(claims: map<K, Claim>, calls: seq<Call<K>>, i: nat)
    requires i < |calls|
  {
    !Live(ClaimsAfter(claims, calls[..i]), calls[i].key, calls[i].now)
  }

  ghost predicate InOrder<K>(calls: seq<Call<K>>) {
    forall i, j :: 0 <= i < j < |calls| ==> calls[i].now <= calls[j].now
  }

  /** The claim taken by call i is there until it expires. */
  lemma {:induction false} ClaimStays<K>(claims: map<K, Claim>, calls: seq<Call<K>>, i: nat, upTo: nat)
    requires InOrder(calls) && i < upTo <= |calls| && Wins(claims, calls, i)
    ensures var after := ClaimsAfter(claims, calls[..upTo]);
      calls[i].key in after && after[calls[i].key].expires >= calls[i].now + CLAIM_MS
  {
    assert calls[..upTo][..upTo - 1] == calls[..upTo - 1];
    if upTo > i + 1 {
      ClaimStays(claims, calls, i, upTo - 1);
    }
  }

  /** Without an unclaim, two callers that are both told they are first for a key
      are at least the claim's lifetime apart, however many ask in between. */
  lemma WinnersAreApart<K>(claims: map<K, Claim>, calls: seq<Call<K>>, i: nat, j: nat)
    requires InOrder(calls) && i < j < |calls| && calls[i].key == calls[j].key
    requires Wins(claims, calls, i) && Wins(claims, calls, j)
    ensures calls[i].now + CLAIM_MS <= calls[j].now
  {
    ClaimStays(claims, calls, i, j);
  }
}

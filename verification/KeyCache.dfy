/**
  The cache of ARM signing keys.

  `arm` is the cloud's own state: the primary key of every live rule. A live rule's key changes only
  by regeneration through this manager; a deletion request that reaches the cloud makes the rules of
  its target dead at once, and dead rules may come back, with any key, when their connection is
  provisioned again. The `keys` mutex is held across each method, so between two cloud calls of a
  method only time and provisioning can move.
*/
module KeyCache {
  import opened Util

  datatype Right = Send | Listen

  datatype Failure = BadRequest | NotFound | Conflict | Unavailable

  datatype Outcome<+T> = Ok(value: T) | Err(why: Failure)

  /** Names in the form the cache uses: ASCII lower case. */
  datatype KeyId = KeyId(namespace: string, relay: string, right: Right)

  datatype CachedKey = CachedKey(key: string, expires: nat)

  type Cache = map<KeyId, CachedKey>

  /** A SAS token, reduced to what it grants and the key it was signed with. */
  datatype Token = Token(namespace: string, relay: string, right: Right, key: string)

  const KEY_TTL: nat := 300
  const MAX_CACHED_KEYS: nat := 1024

  function IdOf(namespace: string, relay: string, right: Right): KeyId {
    KeyId(Lower(namespace), Lower(relay), right)
  }

  predicate AsciiLetter(c: char) {
    'a' <= c <= 'z' || 'A' <= c <= 'Z'
  }

  predicate AsciiAlphanumeric(c: char) {
    AsciiLetter(c) || '0' <= c <= '9'
  }

  predicate ValidNamespace(n: string) {
    && 6 <= |n| <= 50 && AsciiLetter(n[0]) && AsciiAlphanumeric(n[|n| - 1])
    && forall i :: 0 <= i < |n| ==> AsciiAlphanumeric(n[i]) || n[i] == '-'
  }

  predicate ValidConnection(n: string) {
    && 1 <= |n| <= 260 && AsciiAlphanumeric(n[0]) && AsciiAlphanumeric(n[|n| - 1])
    && forall i :: 0 <= i < |n| ==> AsciiAlphanumeric(n[i]) || n[i] in "-_."
  }

  /** The names a token can be asked for, character by character. */
  lemma NamesExactly(namespace: string, relay: string)
    ensures ValidNamespace(namespace) && ValidConnection(relay) <==>
              && 6 <= |namespace| <= 50 && 1 <= |relay| <= 260
              && ('a' <= namespace[0] <= 'z' || 'A' <= namespace[0] <= 'Z') && namespace[|namespace| - 1] != '-'
              && relay[0] !in "-_." && relay[|relay| - 1] !in "-_."
              && (forall i :: 0 <= i < |namespace| ==>
                    var c := namespace[i];
                    'a' <= c <= 'z' || 'A' <= c <= 'Z' || '0' <= c <= '9' || c == '-')
              && (forall i :: 0 <= i < |relay| ==>
                    var c := relay[i];
                    'a' <= c <= 'z' || 'A' <= c <= 'Z' || '0' <= c <= '9' || c in "-_.")
  {
  }

  predicate OfNamespace(id: KeyId, namespace: string) {
    id.namespace == Lower(namespace)
  }

  predicate OfConnection(id: KeyId, namespace: string, relay: string) {
    OfNamespace(id, namespace) && id.relay == Lower(relay)
  }

  // ---------- Cache operations ----------

  function Unexpired(keys: Cache, now: nat): Cache {
    map id | id in keys && keys[id].expires > now :: keys[id]
  }

  function WithoutNamespace(keys: Cache, namespace: string): Cache {
    map id | id in keys && !OfNamespace(id, namespace) :: keys[id]
  }

  function WithoutConnection(keys: Cache, namespace: string, relay: string): Cache {
    map id | id in keys && !OfConnection(id, namespace, relay) :: keys[id]
  }

  /** A full cache is emptied before a new entry goes in. */
  function Remember(keys: Cache, id: KeyId, entry: CachedKey): Cache {
    (if |keys| >= MAX_CACHED_KEYS then map[] else keys)[id := entry]
  }

  /** The cache agrees with the cloud and is within bounds. */
  ghost predicate Faithful(keys: Cache, arm: map<KeyId, string>) {
    && |keys| <= MAX_CACHED_KEYS
    && forall id :: id in keys ==> id in arm && arm[id] == keys[id].key
  }

  lemma FewerEntries(keys: Cache, fewer: Cache)
    requires forall id :: id in fewer ==> id in keys && fewer[id] == keys[id]
    ensures |fewer| <= |keys|
  {
    SubsetCount(fewer.Keys, keys.Keys);
  }

  /** Dropping entries keeps faithfulness, even to a cloud that changed only in what was dropped. */
  lemma DroppingIsSafe(keys: Cache, fewer: Cache, arm: map<KeyId, string>, now: map<KeyId, string>)
    requires Faithful(keys, arm)
    requires forall id :: id in fewer ==> id in keys && fewer[id] == keys[id]
    requires forall id :: id in fewer && id in arm ==> id in now && now[id] == arm[id]
    ensures Faithful(fewer, now)
  {
    FewerEntries(keys, fewer);
  }

  /** Remembering the cloud's current key keeps faithfulness and the bound. */
  lemma RememberingIsSafe(keys: Cache, id: KeyId, entry: CachedKey, arm: map<KeyId, string>)
    requires Faithful(keys, arm) && id in arm && arm[id] == entry.key
    ensures Faithful(Remember(keys, id, entry), arm)
  {
    var base := if |keys| >= MAX_CACHED_KEYS then map[] else keys;
    assert Remember(keys, id, entry).Keys == base.Keys + {id};
    SubsetCount(base.Keys, base.Keys + {id});
    assert |base.Keys + {id}| <= |base.Keys| + 1;
  }

  /** Two spellings of one connection: `eq_ignore_ascii_case` on both names. */
  predicate SameConnection(n1: string, r1: string, n2: string, r2: string) {
    Lower(n1) == Lower(n2) && Lower(r1) == Lower(r2)
  }

  /** What issuing a token at `now` leaves in the cache; the key, if it had to be fetched, arrived at `later`. */
  function Refreshed(keys: Cache, id: KeyId, key: string, now: nat, later: nat): Cache {
    var live := Unexpired(keys, now);
    if id in live then live else Remember(live, id, CachedKey(key, later + KEY_TTL))
  }

  /**
    The entries that have expired go. A key still there is used and nothing is added; otherwise the fetched key
    is there for five minutes, beside the entries that had not expired or, if those were 1024 or more, alone.
  */
  lemma RefreshedExactly(keys: Cache, id: KeyId, key: string, now: nat, later: nat)
    ensures var after := Refreshed(keys, id, key, now, later);
            var live := set k | k in keys && keys[k].expires > now;
            if id in keys && keys[id].expires > now then
              after.Keys == live && forall k :: k in live ==> after[k] == keys[k]
            else
              && id in after && after[id] == CachedKey(key, later + 300)
              && after.Keys == (if |live| < 1024 then live + {id} else {id})
              && forall k :: k in after && k != id ==> after[k] == keys[k]
  {
    var live := set k | k in keys && keys[k].expires > now;
    assert Unexpired(keys, now).Keys == live;
    assert |Unexpired(keys, now)| == |live|;
  }

  /** What the cloud answers to the readiness checks before a key is used. */
  datatype Readiness = ReadyForUse | Missing | Busy | Down

  /** What becomes of a request to list a rule's keys. */
  datatype Listing = Listed | NoSuchRule | NoAnswer

  /** A key the manager can use. */
  predicate Fit(key: string) {
    1 <= |key| <= 256
  }

  class ArmRelayManager {
    var keys: Cache
    var clock: nat
    var arm: map<KeyId, string>

    ghost predicate Valid()
      reads this
    {
      Faithful(keys, arm)
    }

    constructor ()
      ensures Valid() && keys == map[]
    {
      keys := map[];
      clock := 0;
      arm := map[];
    }

    /** Nothing that is live changes; new rules may appear. */
    ghost predicate OnlyAdded(before: map<KeyId, string>)
      reads this
    {
      forall id :: id in before ==> id in arm && arm[id] == before[id]
    }

    /** Between two cloud calls: time passes and missing rules may be provisioned. */
    method Wait()
      requires Valid()
      modifies this`clock, this`arm
      ensures Valid() && OnlyAdded(old(arm)) && old(clock) <= clock
    {
      var later: nat := *;
      if later > clock {
        clock := later;
      }
      var born: map<KeyId, string> := *;
      arm := born + arm;
    }

    /** `answer` is what the readiness checks find and `listing` what becomes of listing the keys, if it comes to that. */
    method IssueToken(namespace: string, relay: string, right: Right, answer: Readiness, listing: Listing)
      returns (r: Outcome<Token>)
      requires Valid()
      modifies this
      ensures Valid() && OnlyAdded(old(arm))
      ensures r == Err(BadRequest) <==>
                !(&& 6 <= |namespace| <= 50 && 1 <= |relay| <= 260
                  && ('a' <= namespace[0] <= 'z' || 'A' <= namespace[0] <= 'Z') && namespace[|namespace| - 1] != '-'
                  && relay[0] !in "-_." && relay[|relay| - 1] !in "-_."
                  && (forall i :: 0 <= i < |namespace| ==>
                        var c := namespace[i];
                        'a' <= c <= 'z' || 'A' <= c <= 'Z' || '0' <= c <= '9' || c == '-')
                  && (forall i :: 0 <= i < |relay| ==>
                        var c := relay[i];
                        'a' <= c <= 'z' || 'A' <= c <= 'Z' || '0' <= c <= '9' || c in "-_."))
      ensures r != Err(BadRequest) && !answer.ReadyForUse? ==>
                r == Err(if answer.Missing? then NotFound else if answer.Busy? then Conflict else Unavailable)
      ensures r.Ok? ==> var id := KeyId(Lower(namespace), Lower(relay), right);
                        answer.ReadyForUse? && id in arm && r.value == Token(namespace, relay, right, arm[id])
      ensures |keys| <= 1024
      ensures r.Ok? ==> exists now :: old(clock) <= now <= clock
                          && keys == Refreshed(old(keys), IdOf(namespace, relay, right), r.value.key, now, clock)
      ensures r == Err(BadRequest) || !answer.ReadyForUse? ==> keys == old(keys)
      ensures r.Err? && answer.ReadyForUse? && ValidNamespace(namespace) && ValidConnection(relay) ==>
                var id := IdOf(namespace, relay, right);
                || (r.why == NotFound && (listing.NoSuchRule? || id !in old(arm)))
                || (r.why == Unavailable && (listing.NoAnswer? || (id in arm && !(1 <= |arm[id]| <= 256))))
    {
      NamesExactly(namespace, relay);
      if !ValidNamespace(namespace) || !ValidConnection(relay) {
        return Err(BadRequest);
      }
      match answer {
        case Missing => return Err(NotFound);
        case Busy => return Err(Conflict);
        case Down => return Err(Unavailable);
        case ReadyForUse =>
      }
      var key := FindKey(IdOf(namespace, relay, right), listing);
      if key.Err? {
        return Err(key.why);
      }
      return Ok(Token(namespace, relay, right, key.value));
    }

    /** The readiness checks have passed, and some time with them. */
    method FindKey(id: KeyId, listing: Listing) returns (r: Outcome<string>)
      requires Valid()
      modifies this
      ensures Valid() && OnlyAdded(old(arm)) && old(clock) <= clock
      ensures r.Ok? ==> id in arm && r.value == arm[id]
      ensures r.Ok? ==> exists now :: old(clock) <= now <= clock && keys == Refreshed(old(keys), id, r.value, now, clock)
      ensures r.Err? ==>
                || (r.why == NotFound && (listing.NoSuchRule? || id !in old(arm)))
                || (r.why == Unavailable && (listing.NoAnswer? || (id in arm && !Fit(arm[id]))))
    {
      Wait();
      ghost var now := clock;
      r := KeyFor(id, listing);
      assert r.Ok? ==> keys == Refreshed(old(keys), id, r.value, now, clock);
    }

    /** The rule's key, from the cache or from the cloud. */
    method KeyFor(id: KeyId, listing: Listing) returns (r: Outcome<string>)
      requires Valid()
      modifies this
      ensures Valid() && OnlyAdded(old(arm)) && old(clock) <= clock
      ensures r.Ok? ==> id in arm && r.value == arm[id] && keys == Refreshed(old(keys), id, r.value, old(clock), clock)
      ensures r.Err? ==>
                || (r.why == NotFound && (listing.NoSuchRule? || id !in old(arm)))
                || (r.why == Unavailable && (listing.NoAnswer? || (id in arm && !Fit(arm[id]))))
    {
      Expire();
      if id in keys {
        return Ok(keys[id].key);
      }
      r := ListKey(id, listing);
      if r.Ok? {
        Keep(id, CachedKey(r.value, clock + KEY_TTL));
      }
    }

    method Expire()
      requires Valid()
      modifies this`keys
      ensures Valid() && keys == Unexpired(old(keys), clock)
    {
      var live := Unexpired(keys, clock);
      DroppingIsSafe(keys, live, arm, arm);
      keys := live;
    }

    /** The cloud lists the rule's key, if there is such a rule. */
    method ListKey(id: KeyId, listing: Listing) returns (r: Outcome<string>)
      requires Valid()
      modifies this`clock, this`arm
      ensures Valid() && OnlyAdded(old(arm)) && old(clock) <= clock
      ensures r == if listing.NoAnswer? then Err(Unavailable)
                   else if listing.NoSuchRule? || id !in arm then Err(NotFound)
                   else if Fit(arm[id]) then Ok(arm[id]) else Err(Unavailable)
    {
      Wait();
      match listing {
        case NoAnswer => return Err(Unavailable);
        case NoSuchRule => return Err(NotFound);
        case Listed =>
          if id !in arm {
            return Err(NotFound);
          }
          return if Fit(arm[id]) then Ok(arm[id]) else Err(Unavailable);
      }
    }

    method Keep(id: KeyId, entry: CachedKey)
      requires Valid() && id in arm && arm[id] == entry.key
      modifies this`keys
      ensures Valid() && keys == Remember(old(keys), id, entry)
    {
      RememberingIsSafe(keys, id, entry, arm);
      keys := Remember(keys, id, entry);
    }

    /** Both rights are forgotten first, so a rotation that stops half way leaves no stale key. */
    method RotateKeys(namespace: string, relay: string) returns (r: Outcome<()>)
      requires Valid()
      modifies this
      ensures Valid()
      ensures !(ValidNamespace(namespace) && ValidConnection(relay)) ==> r == Err(BadRequest) && keys == old(keys) && arm == old(arm)
      ensures ValidNamespace(namespace) && ValidConnection(relay) ==>
                && keys == WithoutConnection(old(keys), namespace, relay)
                && forall n, c, t :: IdOf(n, c, t) in keys <==>
                     IdOf(n, c, t) in old(keys) && !SameConnection(n, c, namespace, relay)
      ensures forall id :: id in old(arm) ==> id in arm && (!OfConnection(id, namespace, relay) ==> arm[id] == old(arm)[id])
    {
      if !ValidNamespace(namespace) || !ValidConnection(relay) {
        return Err(BadRequest);
      }
      DroppingIsSafe(keys, WithoutConnection(keys, namespace, relay), arm, arm);
      keys := WithoutConnection(keys, namespace, relay);
      var sent := Regenerate(namespace, relay, Send);
      if sent.Err? {
        return sent;
      }
      r := Regenerate(namespace, relay, Listen);
    }

    /** One regeneration: it may fail before or after the key changed. */
    method Regenerate(namespace: string, relay: string, right: Right) returns (r: Outcome<()>)
      requires Valid() && IdOf(namespace, relay, right) !in keys
      modifies this`clock, this`arm
      ensures Valid()
      ensures forall id :: id in old(arm) ==> id in arm && (!OfConnection(id, namespace, relay) ==> arm[id] == old(arm)[id])
    {
      Wait();
      var reached: bool, answered: bool := *, *;
      var missing: bool := *;
      var id := IdOf(namespace, relay, right);
      if reached {
        var key: string := *;
        arm := if id in arm then arm[id := key] else arm;
      }
      return if reached && answered then Ok(()) else if !reached && missing then Err(NotFound) else Err(Unavailable);
    }

    /** Answers whether the absence is confirmed. */
    method DeleteConnection(namespace: string, relay: string) returns (r: Outcome<bool>)
      requires Valid()
      modifies this
      ensures Valid()
      ensures !(ValidNamespace(namespace) && ValidConnection(relay)) ==> r == Err(BadRequest) && keys == old(keys) && arm == old(arm)
      ensures ValidNamespace(namespace) && ValidConnection(relay) ==>
                && keys == WithoutConnection(old(keys), namespace, relay)
                && forall n, c, t :: IdOf(n, c, t) in keys <==>
                     IdOf(n, c, t) in old(keys) && !SameConnection(n, c, namespace, relay)
      ensures r.Ok? ==> forall id :: OfConnection(id, namespace, relay) ==> id !in arm
      ensures forall id :: id in old(arm) && !OfConnection(id, namespace, relay) ==> id in arm && arm[id] == old(arm)[id]
    {
      if !ValidNamespace(namespace) || !ValidConnection(relay) {
        return Err(BadRequest);
      }
      DroppingIsSafe(keys, WithoutConnection(keys, namespace, relay), arm, arm);
      keys := WithoutConnection(keys, namespace, relay);
      Wait();
      var reached: bool, answered: bool := *, *;
      var gone: bool := *;
      if reached {
        arm := map id | id in arm && !OfConnection(id, namespace, relay) :: arm[id];
      }
      return if reached && answered then Ok(gone) else Err(Unavailable);
    }

    /** Answers whether the absence is confirmed. */
    method DeleteNamespace(namespace: string) returns (r: Outcome<bool>)
      requires Valid()
      modifies this
      ensures Valid()
      ensures !ValidNamespace(namespace) ==> r == Err(BadRequest) && keys == old(keys) && arm == old(arm)
      ensures ValidNamespace(namespace) ==>
                && keys == WithoutNamespace(old(keys), namespace)
                && forall n, c, t :: IdOf(n, c, t) in keys <==> IdOf(n, c, t) in old(keys) && Lower(n) != Lower(namespace)
      ensures r.Ok? ==> forall id :: OfNamespace(id, namespace) ==> id !in arm
      ensures forall id :: id in old(arm) && !OfNamespace(id, namespace) ==> id in arm && arm[id] == old(arm)[id]
    {
      if !ValidNamespace(namespace) {
        return Err(BadRequest);
      }
      DroppingIsSafe(keys, WithoutNamespace(keys, namespace), arm, arm);
      keys := WithoutNamespace(keys, namespace);
      Wait();
      var reached: bool, answered: bool := *, *;
      var gone: bool := *;
      if reached {
        arm := map id | id in arm && !OfNamespace(id, namespace) :: arm[id];
      }
      return if reached && answered then Ok(gone) else Err(Unavailable);
    }
  }
}

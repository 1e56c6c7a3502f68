// The idempotency store: which keys it refuses, for how long, and how many it holds.
module Idempotency {
  import opened Wrappers
  import opened Collections

  type Keys = map<string, int>

  datatype Config = Config(ttl: int, maxKeys: nat) {
    predicate Valid() {
      maxKeys >= 1
    }
  }

  // `retain`: keys seen less than `ttl` ago.
  function Live(c: Config, keys: Keys, now: int): Keys {
    map k | k in keys && now - keys[k] < c.ttl :: keys[k]
  }

  predicate MustEvict(c: Config, keys: Keys, key: string, now: int) {
    key !in Live(c, keys, now) && |Live(c, keys, now)| >= c.maxKeys
  }

  predicate ValidVictim(c: Config, keys: Keys, key: string, now: int, victim: Option<string>) {
    if MustEvict(c, keys, key, now) then victim.Some? && Oldest(victim.value, Live(c, keys, now)) else victim.None?
  }

  // `record_if_new`: the verdict and the store afterwards.
  predicate IsNew(c: Config, keys: Keys, key: string, now: int) {
    key !in Live(c, keys, now)
  }

  function Recorded(c: Config, keys: Keys, key: string, now: int, victim: Option<string>): Keys {
    var live := Live(c, keys, now);
    if key in live then live else Without(live, victim)[key := now]
  }

  // The store is full of keys that are alive, and none of them was recorded
  // before this one.
  ghost predicate IsOldestOfFull(c: Config, keys: Keys, now: int, key: string)
    requires key in keys
  {
    && |set k | k in keys && now - keys[k] < c.ttl| >= c.maxKeys
    && forall k | k in keys && now - keys[k] < c.ttl :: keys[key] <= keys[k]
  }

  lemma VictimIsOldest(c: Config, keys: Keys, now: int, victim: string)
    requires Oldest(victim, Live(c, keys, now)) && |Live(c, keys, now)| >= c.maxKeys
    ensures IsOldestOfFull(c, keys, now, victim)
  {
    var live := Live(c, keys, now);
    assert live.Keys == set k | k in keys && now - keys[k] < c.ttl;
    assert forall k | k in keys && now - keys[k] < c.ttl :: k in live && live[k] == keys[k];
  }

  class IdempotencyStore {
    const config: Config
    var keys: Keys

    constructor (ttl: int, maxKeys: nat)
      ensures config == Config(ttl, if maxKeys < 1 then 1 else maxKeys) && config.Valid()
      ensures keys == map[]
    {
      config := Config(ttl, if maxKeys < 1 then 1 else maxKeys);
      keys := map[];
    }

    method RecordIfNew(key: string, now: int) returns (isNew: bool, ghost victim: Option<string>)
      requires config.Valid()
      modifies this
      ensures ValidVictim(config, old(keys), key, now, victim)
      ensures isNew == IsNew(config, old(keys), key, now)
      ensures keys == Recorded(config, old(keys), key, now, victim)
      ensures isNew <==> key !in old(keys) || now - old(keys)[key] >= config.ttl
      ensures key in keys && keys[key] == if isNew then now else old(keys)[key]
      ensures forall k | k in keys && k != key :: k in old(keys) && keys[k] == old(keys)[k] && now - keys[k] < config.ttl
      ensures forall k | k in old(keys) && now - old(keys)[k] < config.ttl && k !in keys ::
                IsOldestOfFull(config, old(keys), now, k)
    {
      victim := None;
      keys := Live(config, keys, now);
      if key in keys {
        return false, None;
      }
      if |keys| >= config.maxKeys {
        OldestExists(keys);
        var evictKey :| Oldest(evictKey, keys);
        VictimIsOldest(config, old(keys), now, evictKey);
        keys := keys - {evictKey};
        victim := Some(evictKey);
      }
      keys := keys[key := now];
      isNew := true;
    }
  }

  // --------------------------------------------------------------- the store

  // One acceptance: a key and the time it was recorded.
  datatype Entry = Entry(key: string, at: int)

  datatype Event = Event(key: string, now: int, victim: Option<string>)

  // Keys other than `key` recorded after `at`.
  ghost function OthersSince(log: set<Entry>, key: string, at: int): set<string> {
    set e | e in log && e.key != key && e.at > at :: e.key
  }

  // What the store owes to the log of all acceptances: an acceptance that is
  // not older than `ttl` is still stored, or was displaced by `maxKeys` other keys.
  ghost predicate Remembers(c: Config, keys: Keys, log: set<Entry>, e: Entry) {
    (e.key in keys && keys[e.key] >= e.at) || |OthersSince(log, e.key, e.at)| >= c.maxKeys
  }

  ghost predicate Sound(c: Config, keys: Keys, log: set<Entry>, now: int) {
    && |keys| <= c.maxKeys
    && (forall k | k in keys :: Entry(k, keys[k]) in log)
    && (forall e | e in log :: e.at <= now)
    && (forall k, k' | k in keys && k' in keys && keys[k] == keys[k'] :: k == k')
    && (forall e | e in log && now - e.at < c.ttl :: Remembers(c, keys, log, e))
  }

  function Logged(c: Config, keys: Keys, log: set<Entry>, key: string, now: int): set<Entry> {
    if IsNew(c, keys, key, now) then log + {Entry(key, now)} else log
  }

  // The victim was the oldest of a full store, so everything else in it, and
  // the key that displaces it, was recorded later.
  lemma DisplacedByOthers(c: Config, live: Keys, log: set<Entry>, key: string, now: int, victim: string, at: int)
    requires Oldest(victim, live) && |live| >= c.maxKeys && key !in live && live[victim] >= at && at < now
    requires forall k | k in live :: Entry(k, live[k]) in log
    requires forall k, k' | k in live && k' in live && live[k] == live[k'] :: k == k'
    requires key != victim
    ensures |OthersSince(log + {Entry(key, now)}, victim, at)| >= c.maxKeys
  {
    var others := OthersSince(log + {Entry(key, now)}, victim, at);
    var late := (live.Keys - {victim}) + {key};
    forall k | k in late
      ensures k in others
    {
      if k == key {
        assert Entry(key, now) in log + {Entry(key, now)};
      } else {
        assert live[k] > live[victim];
        assert Entry(k, live[k]) in log + {Entry(key, now)};
      }
    }
    SubsetSize(late, others);
    assert |late| == |live|;
  }

  lemma RememberedStill(c: Config, keys: Keys, log: set<Entry>, before: int, key: string, now: int,
                        victim: Option<string>, e: Entry)
    requires c.Valid() && Sound(c, keys, log, before) && before < now && ValidVictim(c, keys, key, now, victim)
    requires e in log && now - e.at < c.ttl
    ensures Remembers(c, Recorded(c, keys, key, now, victim), Logged(c, keys, log, key, now), e)
  {
    var live := Live(c, keys, now);
    var log' := Logged(c, keys, log, key, now);
    assert Remembers(c, keys, log, e);
    if |OthersSince(log, e.key, e.at)| >= c.maxKeys {
      SubsetSize(OthersSince(log, e.key, e.at), OthersSince(log', e.key, e.at));
    } else if victim == Some(e.key) {
      assert e.key in live && live[e.key] >= e.at;
      DisplacedByOthers(c, live, log, key, now, e.key, e.at);
    }
  }

  lemma LiveIsSmall(c: Config, keys: Keys, now: int)
    ensures |Live(c, keys, now)| <= |keys|
  {
    SubsetSize(Live(c, keys, now).Keys, keys.Keys);
  }

  lemma StepKeepsCapacity(c: Config, keys: Keys, key: string, now: int, victim: Option<string>)
    requires c.Valid() && |keys| <= c.maxKeys && ValidVictim(c, keys, key, now, victim)
    ensures |Recorded(c, keys, key, now, victim)| <= c.maxKeys
  {
    var live := Live(c, keys, now);
    LiveIsSmall(c, keys, now);
    if key !in live {
      var room := Without(live, victim);
      assert victim.Some? ==> room.Keys == live.Keys - {victim.value};
      assert Recorded(c, keys, key, now, victim).Keys == room.Keys + {key};
    }
  }

  // The stored times stay distinct, logged and in the past.
  lemma StepKeepsEntries(c: Config, keys: Keys, log: set<Entry>, before: int, key: string, now: int, victim: Option<string>)
    requires Sound(c, keys, log, before) && before < now
    ensures var keys' := Recorded(c, keys, key, now, victim);
            var log' := Logged(c, keys, log, key, now);
            && (forall k | k in keys' :: Entry(k, keys'[k]) in log')
            && (forall e | e in log' :: e.at <= now)
            && (forall k, k' | k in keys' && k' in keys' && keys'[k] == keys'[k'] :: k == k')
  {
    var keys' := Recorded(c, keys, key, now, victim);
    assert forall k | k in keys' :: (k in keys && keys'[k] == keys[k]) || (k == key && keys'[k] == now);
  }

  lemma StepIsSound(c: Config, keys: Keys, log: set<Entry>, before: int, key: string, now: int, victim: Option<string>)
    requires c.Valid() && Sound(c, keys, log, before) && before < now && ValidVictim(c, keys, key, now, victim)
    ensures Sound(c, Recorded(c, keys, key, now, victim), Logged(c, keys, log, key, now), now)
  {
    var keys' := Recorded(c, keys, key, now, victim);
    var log' := Logged(c, keys, log, key, now);
    StepKeepsCapacity(c, keys, key, now, victim);
    StepKeepsEntries(c, keys, log, before, key, now, victim);
    forall e | e in log' && now - e.at < c.ttl
      ensures Remembers(c, keys', log', e)
    {
      if e in log {
        RememberedStill(c, keys, log, before, key, now, victim, e);
      }
    }
  }

  // ------------------------------------------------------------------- runs

  function Run(c: Config, keys: Keys, events: seq<Event>): Keys
    decreases |events|
  {
    if events == [] then keys
    else Run(c, Recorded(c, keys, events[0].key, events[0].now, events[0].victim), events[1..])
  }

  function Log(c: Config, keys: Keys, log: set<Entry>, events: seq<Event>): set<Entry>
    decreases |events|
  {
    if events == [] then log
    else
      var e := events[0];
      Log(c, Recorded(c, keys, e.key, e.now, e.victim), Logged(c, keys, log, e.key, e.now), events[1..])
  }

  // Calls in lock order under a strictly increasing clock.
  predicate Legal(c: Config, keys: Keys, events: seq<Event>, before: int)
    decreases |events|
  {
    events == [] ||
    var e := events[0];
    && before < e.now && ValidVictim(c, keys, e.key, e.now, e.victim)
    && Legal(c, Recorded(c, keys, e.key, e.now, e.victim), events[1..], e.now)
  }

  function LastTime(events: seq<Event>, before: int): int {
    if events == [] then before else events[|events| - 1].now
  }

  lemma {:induction false} RunIsSound(c: Config, keys: Keys, log: set<Entry>, events: seq<Event>, before: int)
    requires c.Valid() && Sound(c, keys, log, before) && Legal(c, keys, events, before)
    ensures Sound(c, Run(c, keys, events), Log(c, keys, log, events), LastTime(events, before))
    decreases |events|
  {
    if events != [] {
      var e := events[0];
      StepIsSound(c, keys, log, before, e.key, e.now, e.victim);
      RunIsSound(c, Recorded(c, keys, e.key, e.now, e.victim), Logged(c, keys, log, e.key, e.now), events[1..], e.now);
      assert LastTime(events, before) == LastTime(events[1..], e.now);
    }
  }

  // Main result: after any run from the empty store, a key accepted at `at` is
  // refused before `at + ttl` unless `maxKeys` other keys were recorded since,
  // and the store holds at most `maxKeys` keys.
  lemma AcceptedKeyIsRefused(c: Config, events: seq<Event>, start: int, e: Entry, now: int)
    requires c.Valid() && Legal(c, map[], events, start)
    requires var log := Log(c, map[], {}, events);
             e in log && |OthersSince(log, e.key, e.at)| < c.maxKeys
    requires LastTime(events, start) < now < e.at + c.ttl
    ensures !IsNew(c, Run(c, map[], events), e.key, now)
    ensures |Run(c, map[], events)| <= c.maxKeys
  {
    RunIsSound(c, map[], {}, events, start);
    var log := Log(c, map[], {}, events);
    assert Remembers(c, Run(c, map[], events), log, e);
  }

  // Conversely, once every acceptance of the key is `ttl` old it is new again.
  lemma ExpiredKeyIsNew(c: Config, events: seq<Event>, start: int, key: string, now: int)
    requires c.Valid() && Legal(c, map[], events, start) && LastTime(events, start) < now
    requires forall e | e in Log(c, map[], {}, events) && e.key == key :: now - e.at >= c.ttl
    ensures IsNew(c, Run(c, map[], events), key, now)
  {
    RunIsSound(c, map[], {}, events, start);
    var keys := Run(c, map[], events);
    if key in keys {
      assert Entry(key, keys[key]) in Log(c, map[], {}, events);
    }
  }
}

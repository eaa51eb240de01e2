/**
 * The migration of settings and client keys that older browser integrations kept in entry
 * attributes into custom data.
 */
module Migration {
  import opened Text
  import opened Store

  /** The entry's attributes and custom data once the attribute `name` has been moved. */
  function SettingsMoved(attributes: map<string, string>, customData: map<string, string>, name: string)
    : (map<string, string>, map<string, string>)
  {
    if name !in attributes then (attributes, customData)
    else if attributes[name] == [] then (attributes - {name}, customData)
    else (attributes - {name}, customData[BrowserSettingsName := attributes[name]])
  }

  /**
   * moveSettingsToCustomData: when the entry has the attribute `name`, drop it and, unless it is
   * empty, store its value as the entry's browser settings. Says whether the attribute existed.
   */
  method MoveSettingsToCustomData(entry: Entry, name: string) returns (moved: bool)
    modifies entry
    ensures moved <==> name in old(entry.attributes)
    ensures (entry.attributes, entry.customData) == SettingsMoved(old(entry.attributes), old(entry.customData), name)
    ensures entry.expired == old(entry.expired) && entry.recycled == old(entry.recycled)
  {
    if name in entry.attributes {
      var attr := entry.attributes[name];
      if attr != [] {
        entry.customData := entry.customData[BrowserSettingsName := attr];
      }
      entry.attributes := entry.attributes - {name};
      return true;
    }
    return false;
  }

  /** After the move the attribute is gone, every other attribute and custom-data slot but the
      settings slot is kept, a non-empty value lands in the settings slot, and moving again
      changes nothing. */
  lemma SettingsMovedFacts(attributes: map<string, string>, customData: map<string, string>, name: string)
    ensures var (a, c) := SettingsMoved(attributes, customData, name);
            && name !in a
            && (forall k :: k in attributes && k != name ==> k in a && a[k] == attributes[k])
            && a.Keys <= attributes.Keys
            && (forall k :: k in customData && k != BrowserSettingsName ==> k in c && c[k] == customData[k])
            && (name in attributes && attributes[name] != [] ==> BrowserSettingsName in c && c[BrowserSettingsName] == attributes[name])
            && (name !in attributes || attributes[name] == [] ==> c == customData)
            && SettingsMoved(a, c, name) == (a, c)
  {
  }

  /** An attribute that holds a client key in the legacy format. */
  predicate IsLegacyKey(key: string) {
    Contains(key, BrowserLegacyKeyPrefix)
  }

  /** The database custom-data key a legacy attribute is migrated to. */
  function DbKeyOf(key: string): string {
    BrowserKeyPrefix + RemoveAll(key, BrowserLegacyKeyPrefix)
  }

  /** The legacy attribute written for a public key without the prefix in it migrates to the
      database key for that public key. */
  lemma LegacyKeyRoundTrip(publicKey: string)
    requires !Contains(publicKey, BrowserLegacyKeyPrefix)
    ensures IsLegacyKey(BrowserLegacyKeyPrefix + publicKey)
    ensures DbKeyOf(BrowserLegacyKeyPrefix + publicKey) == BrowserKeyPrefix + publicKey
  {
    var key := BrowserLegacyKeyPrefix + publicKey;
    assert StartsWith(key, BrowserLegacyKeyPrefix);
    assert key[|BrowserLegacyKeyPrefix|..] == publicKey;
    RemoveAllAbsent(publicKey, BrowserLegacyKeyPrefix);
  }

  /**
   * The rule of the key migration: which attributes hold a legacy key, and the database key each
   * one migrates to. The lemmas below hold for any rule; the service uses LegacyRule.
   */
  datatype KeyRule = KeyRule(legacy: string -> bool, dbKey: string -> string)

  const LegacyRule := KeyRule(IsLegacyKey, DbKeyOf)

  /** The database keys that migrating the attributes `seen` adds to database custom data `d`. */
  function AddedBy(rule: KeyRule, attributes: map<string, string>, seen: set<string>, d: map<string, string>): set<string> {
    set k | k in seen && k in attributes && rule.legacy(k) && rule.dbKey(k) !in d :: rule.dbKey(k)
  }

  /** The database keys that migrating all of an entry's attributes adds to `d`. */
  function KeysToAdd(rule: KeyRule, attributes: map<string, string>, d: map<string, string>): set<string> {
    AddedBy(rule, attributes, attributes.Keys, d)
  }

  /** A second migration of the same attributes adds nothing. */
  lemma MigrationIdempotent(rule: KeyRule, attributes: map<string, string>, d: map<string, string>, after: map<string, string>)
    requires d.Keys + KeysToAdd(rule, attributes, d) <= after.Keys
    ensures KeysToAdd(rule, attributes, after) == {}
  {
    forall k | k in attributes && rule.legacy(k)
      ensures rule.dbKey(k) in after
    {
      if rule.dbKey(k) !in d {
        assert rule.dbKey(k) in KeysToAdd(rule, attributes, d);
      }
    }
  }

  /**
   * The state of the key loop once the attributes in `seen` are done: the database holds its old
   * keys, unchanged, plus one new key per new public key, each with the value of a legacy
   * attribute that names it, and the counter counts the new keys.
   */
  predicate Migrating(rule: KeyRule, attributes: map<string, string>, d0: map<string, string>, d: map<string, string>,
                      seen: set<string>, count: int)
  {
    && d.Keys == d0.Keys + AddedBy(rule, attributes, seen, d0)
    && count == |AddedBy(rule, attributes, seen, d0)|
    && Kept(d0, d)
    && Sourced(rule, attributes, d0, d, seen)
  }

  /** Every key of `d0` is in `d` with the same value. */
  predicate Kept(d0: map<string, string>, d: map<string, string>) {
    forall k :: k in d0 ==> k in d && d[k] == d0[k]
  }

  /** Every key of `d` that is not in `d0` holds the value of a legacy attribute in `seen` that
      migrates to it. */
  predicate Sourced(rule: KeyRule, attributes: map<string, string>, d0: map<string, string>, d: map<string, string>,
                    seen: set<string>)
  {
    forall k :: k in d && k !in d0 ==>
      exists l :: l in seen && l in attributes && rule.legacy(l) && rule.dbKey(l) == k && d[k] == attributes[l]
  }

  /** Migrating one more attribute adds its database key exactly when it is a legacy attribute
      whose key is not yet stored. */
  lemma AddedByStep(rule: KeyRule, attributes: map<string, string>, d0: map<string, string>, d: map<string, string>,
                    seen: set<string>, key: string)
    requires d.Keys == d0.Keys + AddedBy(rule, attributes, seen, d0)
    requires key in attributes
    ensures rule.legacy(key) && rule.dbKey(key) !in d ==>
              AddedBy(rule, attributes, seen + {key}, d0) == AddedBy(rule, attributes, seen, d0) + {rule.dbKey(key)}
              && rule.dbKey(key) !in AddedBy(rule, attributes, seen, d0)
    ensures !(rule.legacy(key) && rule.dbKey(key) !in d) ==>
              AddedBy(rule, attributes, seen + {key}, d0) == AddedBy(rule, attributes, seen, d0)
  {
    if rule.legacy(key) && rule.dbKey(key) in d && rule.dbKey(key) !in d0 {
      assert rule.dbKey(key) in AddedBy(rule, attributes, seen, d0);
    }
  }

  /** Storing a legacy attribute under its new key keeps every value sourced. */
  lemma SourcedAdd(rule: KeyRule, attributes: map<string, string>, d0: map<string, string>, d: map<string, string>,
                   seen: set<string>, key: string)
    requires Sourced(rule, attributes, d0, d, seen)
    requires key in attributes && rule.legacy(key)
    ensures Sourced(rule, attributes, d0, d[rule.dbKey(key) := attributes[key]], seen + {key})
  {
    var next := d[rule.dbKey(key) := attributes[key]];
    forall k | k in next && k !in d0
      ensures exists l :: l in seen + {key} && l in attributes && rule.legacy(l) && rule.dbKey(l) == k && next[k] == attributes[l]
    {
      if k == rule.dbKey(key) {
        assert key in seen + {key};
      } else {
        var l :| l in seen && l in attributes && rule.legacy(l) && rule.dbKey(l) == k && d[k] == attributes[l];
        assert l in seen + {key};
      }
    }
  }

  /** Visiting an attribute without storing anything keeps every value sourced. */
  lemma SourcedKeep(rule: KeyRule, attributes: map<string, string>, d0: map<string, string>, d: map<string, string>,
                    seen: set<string>, key: string)
    requires Sourced(rule, attributes, d0, d, seen)
    ensures Sourced(rule, attributes, d0, d, seen + {key})
  {
    forall k | k in d && k !in d0
      ensures exists l :: l in seen + {key} && l in attributes && rule.legacy(l) && rule.dbKey(l) == k && d[k] == attributes[l]
    {
      var l :| l in seen && l in attributes && rule.legacy(l) && rule.dbKey(l) == k && d[k] == attributes[l];
      assert l in seen + {key};
    }
  }

  /** Storing a new key keeps the old ones and their values. */
  lemma KeptAdd(d0: map<string, string>, d: map<string, string>, k: string, v: string)
    requires Kept(d0, d) && k !in d
    ensures Kept(d0, d[k := v])
  {
  }

  /** Storing a new key under the migrated key of a fresh legacy attribute keeps the count. */
  lemma CountAdd(keys: set<string>, d0: map<string, string>, d: map<string, string>, added: set<string>, count: int,
                 k: string, v: string)
    requires d.Keys == d0.Keys + added && count == |added| && k !in d
    requires keys == added + {k}
    ensures d[k := v].Keys == d0.Keys + keys && count + 1 == |keys|
  {
  }

  /** A legacy attribute whose database key is new adds it to the database. */
  lemma MigratingAdd(rule: KeyRule, attributes: map<string, string>, d0: map<string, string>, d: map<string, string>,
                     seen: set<string>, count: int, key: string)
    requires Migrating(rule, attributes, d0, d, seen, count)
    requires key in attributes && rule.legacy(key) && rule.dbKey(key) !in d
    ensures Migrating(rule, attributes, d0, d[rule.dbKey(key) := attributes[key]], seen + {key}, count + 1)
  {
    AddedByStep(rule, attributes, d0, d, seen, key);
    CountAdd(AddedBy(rule, attributes, seen + {key}, d0), d0, d, AddedBy(rule, attributes, seen, d0), count,
             rule.dbKey(key), attributes[key]);
    KeptAdd(d0, d, rule.dbKey(key), attributes[key]);
    SourcedAdd(rule, attributes, d0, d, seen, key);
  }

  /** Any other attribute leaves the database as it is. */
  lemma MigratingKeep(rule: KeyRule, attributes: map<string, string>, d0: map<string, string>, d: map<string, string>,
                      seen: set<string>, count: int, key: string)
    requires Migrating(rule, attributes, d0, d, seen, count)
    requires key in attributes && !(rule.legacy(key) && rule.dbKey(key) !in d)
    ensures Migrating(rule, attributes, d0, d, seen + {key}, count)
  {
    AddedByStep(rule, attributes, d0, d, seen, key);
    SourcedKeep(rule, attributes, d0, d, seen, key);
  }

  /**
   * moveKeysToCustomData: every attribute whose name holds the legacy prefix gives a public key
   * (the name with the prefix removed); the key is stored in the database's custom data unless
   * it is already there. Returns the number of keys stored; with no database it stores nothing.
   * The attributes are visited in an unspecified order: which of two legacy attributes naming
   * the same public key wins is not fixed, everything else is.
   */
  method MoveKeysToCustomData(entry: Entry, db: Database?) returns (keyCounter: int)
    modifies db
    ensures db == null ==> keyCounter == 0
    ensures db != null ==> Migrating(LegacyRule, entry.attributes, old(db.customData), db.customData, entry.attributes.Keys, keyCounter)
    ensures db != null ==> db.groups == old(db.groups)
  {
    keyCounter := MigrateAttributes(entry.attributes, db);
  }

  /** The key loop of moveKeysToCustomData over the entry's attributes. */
  method MigrateAttributes(attributes: map<string, string>, db: Database?) returns (keyCounter: int)
    modifies db
    ensures db == null ==> keyCounter == 0
    ensures db != null ==> Migrating(LegacyRule, attributes, old(db.customData), db.customData, attributes.Keys, keyCounter)
    ensures db != null ==> db.groups == old(db.groups)
  {
    keyCounter := 0;
    var keys := attributes.Keys;
    ghost var seen: set<string> := {};
    ghost var d0 := if db != null then db.customData else map[];
    while keys != {}
      invariant Visiting(attributes, keys, seen)
      invariant db == null ==> keyCounter == 0
      invariant db != null ==> Migrating(LegacyRule, attributes, d0, db.customData, seen, keyCounter)
      invariant db != null ==> db.groups == old(db.groups)
      decreases keys
    {
      var key :| key in keys;
      var added := MigrateNext(db, attributes, key, d0, seen, keyCounter);
      if added {
        keyCounter := keyCounter + 1;
      }
      keys, seen := keys - {key}, seen + {key};
    }
  }

  /** The body of the key loop with its bookkeeping: migrating one more attribute keeps the
      state of the loop, counting the key it stores. */
  method MigrateNext(db: Database?, attributes: map<string, string>, key: string,
                     ghost d0: map<string, string>, ghost seen: set<string>, count: int) returns (added: bool)
    requires key in attributes
    requires db != null ==> Migrating(LegacyRule, attributes, d0, db.customData, seen, count)
    modifies db
    ensures db == null ==> !added
    ensures db != null ==>
              && Migrating(LegacyRule, attributes, d0, db.customData, seen + {key}, if added then count + 1 else count)
              && db.groups == old(db.groups)
  {
    if db != null {
      if IsLegacyKey(key) && DbKeyOf(key) !in db.customData {
        MigratingAdd(LegacyRule, attributes, d0, db.customData, seen, count, key);
      } else {
        MigratingKeep(LegacyRule, attributes, d0, db.customData, seen, count, key);
      }
    }
    added := MigrateKey(db, attributes, key);
  }

  /** The attributes still to visit and those visited split the attribute names. */
  predicate Visiting(attributes: map<string, string>, keys: set<string>, seen: set<string>) {
    keys + seen == attributes.Keys && keys !! seen
  }

  /** The body of the key loop: migrate one attribute, saying whether a key was stored. */
  method MigrateKey(db: Database?, attributes: map<string, string>, key: string) returns (added: bool)
    requires key in attributes
    modifies db
    ensures db == null ==> !added
    ensures db != null ==> added == (IsLegacyKey(key) && DbKeyOf(key) !in old(db.customData))
    ensures db != null ==> db.groups == old(db.groups)
    ensures db != null ==>
              db.customData == if added then old(db.customData)[DbKeyOf(key) := attributes[key]] else old(db.customData)
  {
    added := false;
    if IsLegacyKey(key) {
      var publicKey := RemoveAll(key, BrowserLegacyKeyPrefix);
      // Add key to database custom data
      if db != null && BrowserKeyPrefix + publicKey !in db.customData {
        db.customData := db.customData[BrowserKeyPrefix + publicKey := attributes[key]];
        added := true;
      }
    }
  }
}

/** `SetupArticles.addDDLRecordSet`. */
module RecordSetUpsert {
  import opened Wrappers
  import opened JavaLang
  import opened Model
  import opened Store

  /** `ResolverUtil.getStructureId(ddlStructureKey, groupId, DDLRecordSet.class, false)`. */
  function RecordSetStructureId(env: Env, r: RecordSetDecl, groupId: int): Option<int> {
    env.structureId(r.ddlStructureKey, groupId, DDLRecordSetClass)
  }

  /**
   * What `addDDLRecordSet(recordSet, groupId)` returns and leaves in the store.
   * The record set is looked up by its own key but created under the key of
   * its DDL structure: the fourth argument of `addRecordSet` is the new
   * record set's key, and the setup passes `getDdlStructureKey()` there.
   */
  function AddDDLRecordSetSpec(db: Db, env: Env, r: RecordSetDecl, groupId: int): (res: After)
    ensures res.db.permissions == db.permissions
  {
    match env.siteDefaultLocale(groupId)
    case None => After(Thrown(PortalError), db)
    case Some(site) =>
      var nameMap := map[Some(site) := r.name];
      var descMap := map[Some(site) := r.description];
      var k := RecordSetKey(groupId, r.key);
      match RecordSetStructureId(env, r, groupId)
      case None => After(Thrown(PortalError), db)
      case Some(structureId) =>
        if k in db.recordSets then
          var rs := db.recordSets[k];
          After(Normal, db.PutRecordSet(k, rs.(nameMap := nameMap, descriptionMap := descMap,
                                                ddmStructureId := structureId)))
        else
          var created := RecordSetKey(groupId, r.ddlStructureKey);
          if created in db.recordSets then After(Thrown(PortalError), db)
          else After(Normal, db.NewRecordSet(created, structureId, nameMap, descMap))
  }

  method AddDDLRecordSet(store: ContentStore, env: Env, r: RecordSetDecl, groupId: int) returns (outcome: Outcome)
    modifies store
    ensures After(outcome, store.Snapshot()) == AddDDLRecordSetSpec(old(store.Snapshot()), env, r, groupId)
  {
    var nameMap: LocaleMap := map[];
    var siteDefaultLocale := env.siteDefaultLocale(groupId);
    if siteDefaultLocale.None? {
      return Thrown(PortalError);
    }
    nameMap := nameMap[siteDefaultLocale := r.name];
    var descMap: LocaleMap := map[];
    descMap := descMap[siteDefaultLocale := r.description];
    var k := RecordSetKey(groupId, r.key);
    var ddlRecordSet := store.FetchRecordSet(k);
    if ddlRecordSet.Some? {
      var rs := ddlRecordSet.value;
      rs := rs.(nameMap := nameMap);
      rs := rs.(descriptionMap := descMap);
      var structureId := env.structureId(r.ddlStructureKey, groupId, DDLRecordSetClass);
      if structureId.None? {
        return Thrown(PortalError);
      }
      rs := rs.(ddmStructureId := structureId.value);
      store.UpdateRecordSet(k, rs);
      return Normal;
    }
    var structureId := env.structureId(r.ddlStructureKey, groupId, DDLRecordSetClass);
    if structureId.None? {
      return Thrown(PortalError);
    }
    var added := store.AddRecordSet(RecordSetKey(groupId, r.ddlStructureKey), structureId.value, nameMap, descMap);
    if !added {
      return Thrown(PortalError);
    }
    return Normal;
  }

  // ---------------------------------------------------------------------------
  // Properties
  // ---------------------------------------------------------------------------

  /**
   * An existing record set is re-bound to the structure id resolved on this
   * run, and takes the declared name and description; its id stays.
   */
  lemma UpdateRebindsStructure(db: Db, env: Env, r: RecordSetDecl, groupId: int)
    requires env.siteDefaultLocale(groupId).Some?
    requires RecordSetStructureId(env, r, groupId).Some?
    requires RecordSetKey(groupId, r.key) in db.recordSets
    ensures var res := AddDDLRecordSetSpec(db, env, r, groupId);
            var k := RecordSetKey(groupId, r.key);
            var site := env.siteDefaultLocale(groupId);
            && res.outcome == Normal
            && res.db.recordSets.Keys == db.recordSets.Keys
            && res.db.recordSets[k].ddmStructureId == RecordSetStructureId(env, r, groupId).value
            && res.db.recordSets[k].recordSetId == db.recordSets[k].recordSetId
            && res.db.recordSets[k].nameMap == map[site := r.name]
            && res.db.recordSets[k].descriptionMap == map[site := r.description]
            && res.db.Tables() == db.Tables().PutRecordSet(k, res.db.recordSets[k])
  {
  }

  /** A structure id that does not resolve throws, and the store keeps what it had. */
  lemma UnresolvedStructureThrows(db: Db, env: Env, r: RecordSetDecl, groupId: int)
    requires RecordSetStructureId(env, r, groupId).None?
    ensures AddDDLRecordSetSpec(db, env, r, groupId) == After(Thrown(PortalError), db)
  {
  }

  /**
   * A record set not found under its key is created under its DDL structure's
   * key, with the resolved structure id, a fresh id and the site-locale name
   * and description maps; every other record set and table stays.
   */
  lemma CreateUnderStructureKey(db: Db, env: Env, r: RecordSetDecl, groupId: int)
    requires env.siteDefaultLocale(groupId).Some?
    requires RecordSetStructureId(env, r, groupId).Some?
    requires RecordSetKey(groupId, r.key) !in db.recordSets
    requires RecordSetKey(groupId, r.ddlStructureKey) !in db.recordSets
    ensures var res := AddDDLRecordSetSpec(db, env, r, groupId);
            var created := RecordSetKey(groupId, r.ddlStructureKey);
            && res.outcome == Normal
            && res.db.recordSets.Keys == db.recordSets.Keys + {created}
            && res.db.recordSets[created].recordSetId == db.nextId
            && res.db.recordSets[created].ddmStructureId == RecordSetStructureId(env, r, groupId).value
            && res.db.recordSets[created].minDisplayRows == MinDisplayRows
            && res.db.recordSets[created].nameMap == map[env.siteDefaultLocale(groupId) := r.name]
            && res.db.recordSets[created].descriptionMap == map[env.siteDefaultLocale(groupId) := r.description]
            && (forall k :: k in db.recordSets ==> res.db.recordSets[k] == db.recordSets[k])
            && res.db.Tables() == db.Tables().(recordSets := res.db.recordSets, nextId := db.nextId + 1)
  {
  }

  /**
   * When the record-set key differs from the DDL structure key, a record set
   * created by one run is not found by the next, whose add then collides with
   * it and throws a `PortalException` (which `setupSiteArticles` does not catch).
   */
  lemma RerunCollidesWhenKeysDiffer(db: Db, env: Env, r: RecordSetDecl, groupId: int)
    requires r.key != r.ddlStructureKey
    requires env.siteDefaultLocale(groupId).Some?
    requires RecordSetStructureId(env, r, groupId).Some?
    requires RecordSetKey(groupId, r.key) !in db.recordSets
    ensures var once := AddDDLRecordSetSpec(db, env, r, groupId);
            var twice := AddDDLRecordSetSpec(once.db, env, r, groupId);
            twice == After(Thrown(PortalError), once.db)
  {
    var once := AddDDLRecordSetSpec(db, env, r, groupId);
    if RecordSetKey(groupId, r.ddlStructureKey) !in db.recordSets {
      CreateUnderStructureKey(db, env, r, groupId);
    }
    assert RecordSetKey(groupId, r.key) !in once.db.recordSets;
    assert RecordSetKey(groupId, r.ddlStructureKey) in once.db.recordSets;
  }

  /** A record set that already holds the declared values is left as it is. */
  lemma RecordSetFixedPoint(db: Db, env: Env, r: RecordSetDecl, groupId: int)
    requires env.siteDefaultLocale(groupId).Some?
    requires RecordSetStructureId(env, r, groupId).Some?
    requires RecordSetKey(groupId, r.key) in db.recordSets
    requires var rs := db.recordSets[RecordSetKey(groupId, r.key)];
             var site := env.siteDefaultLocale(groupId);
             && rs.nameMap == map[site := r.name]
             && rs.descriptionMap == map[site := r.description]
             && rs.ddmStructureId == RecordSetStructureId(env, r, groupId).value
    ensures AddDDLRecordSetSpec(db, env, r, groupId) == After(Normal, db)
  {
    var k := RecordSetKey(groupId, r.key);
    var rs := db.recordSets[k];
    assert db.recordSets[k := rs] == db.recordSets;
  }

  /** When the two keys agree, running the record-set upsert twice leaves what once left. */
  lemma IdempotentWhenKeysAgree(db: Db, env: Env, r: RecordSetDecl, groupId: int)
    requires r.key == r.ddlStructureKey
    ensures var once := AddDDLRecordSetSpec(db, env, r, groupId);
            AddDDLRecordSetSpec(once.db, env, r, groupId) == once
  {
    var once := AddDDLRecordSetSpec(db, env, r, groupId);
    if env.siteDefaultLocale(groupId).Some? && RecordSetStructureId(env, r, groupId).Some? {
      if RecordSetKey(groupId, r.key) in db.recordSets {
        UpdateRebindsStructure(db, env, r, groupId);
      } else {
        CreateUnderStructureKey(db, env, r, groupId);
      }
      RecordSetFixedPoint(once.db, env, r, groupId);
    }
  }
}

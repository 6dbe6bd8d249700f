/** `SetupArticles.addDDMStructure` and `getStructureNameOrKey`. */
module StructureUpsert {
  import opened Wrappers
  import opened JavaLang
  import opened Model
  import opened Permissions
  import opened Store

  /**
   * `getStructureNameOrKey` as written: the key whenever a name is declared,
   * and the (null) name when none is. A declared name never reaches the store
   * unless it happens to equal the key.
   */
  function StructureNameOrKey(s: StructureDecl): (r: JString)
    ensures r.None? <==> s.name.None?
    ensures r.Some? ==> r.value == s.key
    ensures s.name.Some? && s.name.value != s.key ==> r != s.name
  {
    if s.name == None then s.name else Some(s.key)
  }

  /**
   * The structure's name map: the name under the site default locale (which is
   * `null` when it could not be determined) and under the form's own default
   * locale.
   */
  function StructureNameMap(site: Option<Locale>, formLocale: Locale, name: JString): (m: LocaleMap)
    ensures m.Keys == {site, Some(formLocale)}
    ensures forall l :: l in m ==> m[l] == name
  {
    var m := map[site := name];
    if Some(formLocale) != site then m[Some(formLocale) := name] else m
  }

  /**
   * The parent id an existing structure keeps or takes: the declared parent's
   * id when a non-empty parent key is declared and that structure is found,
   * otherwise the parent id it already had.
   */
  function UpdatedParentId(db: Db, groupId: int, classNameId: int, parent: JString, current: int): int {
    if IsNonEmpty(parent) && EntityKey(groupId, classNameId, parent.value) in db.structures
    then db.structures[EntityKey(groupId, classNameId, parent.value)].structureId
    else current
  }

  /** What `addDDMStructure(structure, groupId, classNameId)` leaves in the store. */
  function AddDDMStructureSpec(db: Db, env: Env, s: StructureDecl, groupId: int, classNameId: int): (r: Db)
    ensures db.permissions <= r.permissions
  {
    var site := env.siteDefaultLocale(groupId);
    var name := StructureNameOrKey(s);
    match env.fileContent(s.path)
    case None => db
    case Some(content) =>
      match env.parseForm(content)
      case None => db
      case Some(form) =>
        SaveStructure(db, s, EntityKey(groupId, classNameId, s.key), StructureNameMap(site, form.defaultLocale, name), form)
  }

  /** The fetch-then-update-or-add part of `addDDMStructure`, once the form is parsed. */
  function SaveStructure(db: Db, s: StructureDecl, k: EntityKey, nameMap: LocaleMap, form: Form): (r: Db)
    ensures db.permissions <= r.permissions
  {
    if k in db.structures then
      var st := db.structures[k];
      var parentId := UpdatedParentId(db, k.groupId, k.classNameId, s.parent, st.parentStructureId);
      db.PutStructure(k, st.(parentStructureId := parentId, nameMap := nameMap, descriptionMap := map[], form := form))
        .Grant(PermissionCall(StructureResource, st.structureId, s.rolePermissions, StructureDefaults))
    else
      db.NewStructure(k, s.parent, nameMap, map[], form)
        .Grant(PermissionCall(StructureResource, db.nextId, s.rolePermissions, StructureDefaults))
  }

  method AddDDMStructure(store: ContentStore, env: Env, s: StructureDecl, groupId: int, classNameId: int)
    modifies store
    ensures store.Snapshot() == AddDDMStructureSpec(old(store.Snapshot()), env, s, groupId, classNameId)
  {
    var nameMap: LocaleMap := map[];
    var siteDefaultLocale := env.siteDefaultLocale(groupId);
    var name := StructureNameOrKey(s);
    nameMap := nameMap[siteDefaultLocale := name];
    var descMap: LocaleMap := map[];
    var content := env.fileContent(s.path);
    if content.None? {
      return;
    }
    var form := env.parseForm(content.value);
    if form.None? {
      return;
    }
    var contentDefaultLocale := form.value.defaultLocale;
    if Some(contentDefaultLocale) != siteDefaultLocale {
      nameMap := nameMap[Some(contentDefaultLocale) := name];
    }
    var k := EntityKey(groupId, classNameId, s.key);
    var ddmStructure := store.FetchStructure(k);
    if ddmStructure.Some? {
      var st := ddmStructure.value;
      if s.parent.Some? && s.parent.value != "" {
        var parentStructure := store.FetchStructure(EntityKey(groupId, classNameId, s.parent.value));
        if parentStructure.Some? {
          st := st.(parentStructureId := parentStructure.value.structureId);
        }
      }
      store.UpdateStructure(k, st.(nameMap := nameMap, descriptionMap := descMap, form := form.value));
      store.UpdatePermission(PermissionCall(StructureResource, st.structureId, s.rolePermissions, StructureDefaults));
      return;
    }
    var newStructure := store.AddStructure(k, s.parent, nameMap, descMap, form.value);
    store.UpdatePermission(PermissionCall(StructureResource, newStructure.structureId, s.rolePermissions, StructureDefaults));
  }

  // ---------------------------------------------------------------------------
  // Properties
  // ---------------------------------------------------------------------------

  /** A structure file that cannot be read or parsed leaves the store exactly as it was. */
  lemma ReadOrParseFailureLeavesStore(db: Db, env: Env, s: StructureDecl, groupId: int, classNameId: int)
    requires env.fileContent(s.path).None? || env.parseForm(env.fileContent(s.path).value).None?
    ensures AddDDMStructureSpec(db, env, s, groupId, classNameId) == db
  {
  }

  /**
   * After a successful read, the stored name map maps the site default locale,
   * and the form's own default locale, to `getStructureNameOrKey`, and nothing
   * else; the description map is empty.
   */
  lemma StoredNameMap(db: Db, env: Env, s: StructureDecl, groupId: int, classNameId: int)
    requires env.fileContent(s.path).Some?
    requires env.parseForm(env.fileContent(s.path).value).Some?
    ensures var r := AddDDMStructureSpec(db, env, s, groupId, classNameId);
            var k := EntityKey(groupId, classNameId, s.key);
            var form := env.parseForm(env.fileContent(s.path).value).value;
            && k in r.structures
            && r.structures[k].nameMap.Keys == {env.siteDefaultLocale(groupId), Some(form.defaultLocale)}
            && r.structures[k].nameMap[env.siteDefaultLocale(groupId)] == StructureNameOrKey(s)
            && r.structures[k].nameMap[Some(form.defaultLocale)] == StructureNameOrKey(s)
            && r.structures[k].descriptionMap == map[]
            && r.structures[k].form == form
  {
    var form := env.parseForm(env.fileContent(s.path).value).value;
    var k := EntityKey(groupId, classNameId, s.key);
    var nameMap := StructureNameMap(env.siteDefaultLocale(groupId), form.defaultLocale, StructureNameOrKey(s));
    SavedUnderKey(db, s, k, nameMap, form);
  }

  /** The save stores the given name map and form under the key, with no description. */
  lemma SavedUnderKey(db: Db, s: StructureDecl, k: EntityKey, nameMap: LocaleMap, form: Form)
    ensures var r := SaveStructure(db, s, k, nameMap, form);
            && k in r.structures
            && r.structures[k].nameMap == nameMap
            && r.structures[k].descriptionMap == map[]
            && r.structures[k].form == form
  {
    var r := SaveStructure(db, s, k, nameMap, form);
    if k in db.structures {
      var st := db.structures[k];
      var parentId := UpdatedParentId(db, k.groupId, k.classNameId, s.parent, st.parentStructureId);
      var rec := st.(parentStructureId := parentId, nameMap := nameMap, descriptionMap := map[], form := form);
      assert r.structures == db.structures[k := rec];
    } else {
      var rec := StructureRec(db.nextId, db.ParentIdOf(k.groupId, k.classNameId, s.parent), nameMap, map[], form);
      assert r.structures == db.structures[k := rec];
    }
  }

  /**
   * Updating an existing structure keeps its id; its parent changes only to a
   * declared, non-empty and found parent, otherwise it keeps the old parent;
   * no other structure and no other table changes; one permission call is
   * made on its id.
   */
  lemma UpdateKeepsIdAndParentRule(db: Db, env: Env, s: StructureDecl, groupId: int, classNameId: int)
    requires env.fileContent(s.path).Some?
    requires env.parseForm(env.fileContent(s.path).value).Some?
    requires EntityKey(groupId, classNameId, s.key) in db.structures
    ensures var r := AddDDMStructureSpec(db, env, s, groupId, classNameId);
            var k := EntityKey(groupId, classNameId, s.key);
            var was := db.structures[k];
            var pk := EntityKey(groupId, classNameId, if s.parent.Some? then s.parent.value else "");
            && r.structures.Keys == db.structures.Keys
            && r.structures[k].structureId == was.structureId
            && (if IsNonEmpty(s.parent) && pk in db.structures
                then r.structures[k].parentStructureId == db.structures[pk].structureId
                else r.structures[k].parentStructureId == was.parentStructureId)
            && (forall k' :: k' in db.structures && k' != k ==> r.structures[k'] == db.structures[k'])
            && r.nextId == db.nextId
            && r.Tables() == db.Tables().(structures := r.structures)
            && r.permissions == db.permissions
                 + [PermissionCall(StructureResource, was.structureId, s.rolePermissions, StructureDefaults)]
  {
  }

  /**
   * A structure that does not exist yet is created under the declared key with
   * a fresh id and its parent resolved by key in the same group and class;
   * no other structure and no other table changes.
   */
  lemma CreateUnderDeclaredKey(db: Db, env: Env, s: StructureDecl, groupId: int, classNameId: int)
    requires env.fileContent(s.path).Some?
    requires env.parseForm(env.fileContent(s.path).value).Some?
    requires EntityKey(groupId, classNameId, s.key) !in db.structures
    ensures var r := AddDDMStructureSpec(db, env, s, groupId, classNameId);
            var k := EntityKey(groupId, classNameId, s.key);
            && r.structures.Keys == db.structures.Keys + {k}
            && r.structures[k].structureId == db.nextId
            && r.structures[k].parentStructureId == db.ParentIdOf(groupId, classNameId, s.parent)
            && (forall k' :: k' in db.structures ==> r.structures[k'] == db.structures[k'])
            && r.Tables() == db.Tables().(structures := r.structures, nextId := db.nextId + 1)
            && r.permissions == db.permissions
                 + [PermissionCall(StructureResource, db.nextId, s.rolePermissions, StructureDefaults)]
  {
  }

  /**
   * Running the structure upsert a second time changes no table, and records
   * the same permission call again. The declared parent must not be the
   * structure itself: a self-parent is not found on creation but found on the
   * second run.
   */
  lemma AddDDMStructureIdempotent(db: Db, env: Env, s: StructureDecl, groupId: int, classNameId: int)
    requires s.parent != Some(s.key)
    ensures var once := AddDDMStructureSpec(db, env, s, groupId, classNameId);
            var twice := AddDDMStructureSpec(once, env, s, groupId, classNameId);
            && twice.Tables() == once.Tables()
            && twice.permissions == once.permissions + once.permissions[|db.permissions|..]
  {
    match env.fileContent(s.path)
    case None =>
    case Some(content) =>
      match env.parseForm(content)
      case None =>
      case Some(form) =>
        var nameMap := StructureNameMap(env.siteDefaultLocale(groupId), form.defaultLocale, StructureNameOrKey(s));
        SaveStructureIdempotent(db, s, EntityKey(groupId, classNameId, s.key), nameMap, form);
  }

  lemma SaveStructureIdempotent(db: Db, s: StructureDecl, k: EntityKey, nameMap: LocaleMap, form: Form)
    requires k.key == s.key && s.parent != Some(s.key)
    ensures var once := SaveStructure(db, s, k, nameMap, form);
            var twice := SaveStructure(once, s, k, nameMap, form);
            && twice.Tables() == once.Tables()
            && twice.permissions == once.permissions + once.permissions[|db.permissions|..]
  {
    var once := SaveStructure(db, s, k, nameMap, form);
    ParentUnaffected(db, once, s, k);
    SavedRecord(db, s, k, nameMap, form);
    var rec := once.structures[k];
    var call := PermissionCall(StructureResource, rec.structureId, s.rolePermissions, StructureDefaults);
    var twice := SaveStructure(once, s, k, nameMap, form);
    assert twice == once.PutStructure(k, rec).Grant(call);
    assert once.structures[k := rec] == once.structures;
  }

  /** What one save leaves under the key, and the one permission call it records. */
  lemma SavedRecord(db: Db, s: StructureDecl, k: EntityKey, nameMap: LocaleMap, form: Form)
    ensures var once := SaveStructure(db, s, k, nameMap, form);
            && k in once.structures
            && once.structures[k].nameMap == nameMap
            && once.structures[k].descriptionMap == map[]
            && once.structures[k].form == form
            && once.permissions == db.permissions
                 + [PermissionCall(StructureResource, once.structures[k].structureId, s.rolePermissions, StructureDefaults)]
  {
    if k in db.structures {
      var st := db.structures[k];
      var parentId := UpdatedParentId(db, k.groupId, k.classNameId, s.parent, st.parentStructureId);
      var rec := st.(parentStructureId := parentId, nameMap := nameMap, descriptionMap := map[], form := form);
      assert SaveStructure(db, s, k, nameMap, form).structures[k] == rec;
    } else {
      var rec := StructureRec(db.nextId, db.ParentIdOf(k.groupId, k.classNameId, s.parent), nameMap, map[], form);
      assert SaveStructure(db, s, k, nameMap, form).structures[k] == rec;
    }
  }

  /** The first run does not touch the declared parent, so the second run resolves it the same way. */
  lemma ParentUnaffected(db: Db, once: Db, s: StructureDecl, k: EntityKey)
    requires k.key == s.key && s.parent != Some(s.key)
    requires exists nameMap, form :: once == SaveStructure(db, s, k, nameMap, form)
    ensures k in once.structures
    ensures IsNonEmpty(s.parent) ==>
              var pk := EntityKey(k.groupId, k.classNameId, s.parent.value);
              && (pk in once.structures <==> pk in db.structures)
              && (pk in db.structures ==> once.structures[pk] == db.structures[pk])
    ensures once.structures[k].parentStructureId ==
              UpdatedParentId(once, k.groupId, k.classNameId, s.parent, once.structures[k].parentStructureId)
  {
    var nameMap, form :| once == SaveStructure(db, s, k, nameMap, form);
  }

  /** With the structure declared as its own parent, the second run re-parents it to itself. */
  lemma SelfParentNotIdempotent(env: Env, s: StructureDecl, groupId: int, classNameId: int)
    requires s.parent == Some(s.key)
    requires s.key != ""
    requires env.fileContent(s.path).Some?
    requires env.parseForm(env.fileContent(s.path).value).Some?
    ensures var once := AddDDMStructureSpec(EmptyDb, env, s, groupId, classNameId);
            var twice := AddDDMStructureSpec(once, env, s, groupId, classNameId);
            var k := EntityKey(groupId, classNameId, s.key);
            && once.structures[k].parentStructureId == 0
            && twice.structures[k].parentStructureId == once.structures[k].structureId
            && twice.Tables() != once.Tables()
  {
    var once := AddDDMStructureSpec(EmptyDb, env, s, groupId, classNameId);
    var twice := AddDDMStructureSpec(once, env, s, groupId, classNameId);
    var k := EntityKey(groupId, classNameId, s.key);
    CreateUnderDeclaredKey(EmptyDb, env, s, groupId, classNameId);
    UpdateKeepsIdAndParentRule(once, env, s, groupId, classNameId);
    assert twice.structures[k] != once.structures[k];
  }
}

/** The two `SetupArticles.addDDMTemplate` overloads: article templates and ADTs. */
module TemplateUpsert {
  import opened Wrappers
  import opened JavaLang
  import opened Model
  import opened Store

  /** A template's display name: the declared name, or its key when none is declared. */
  function TemplateName(name: JString, key: string): (r: string)
    ensures name.Some? ==> r == name.value
    ensures name.None? ==> r == key
  {
    if name.None? then key else name.value
  }

  // ---------------------------------------------------------------------------
  // Article templates
  // ---------------------------------------------------------------------------

  /**
   * The `classPK` of an article template: 0 without a structure key, the
   * resolved structure id with one; `None` when resolution throws.
   */
  function ArticleTemplateClassPK(env: Env, t: ArticleTemplateDecl, groupId: int): (r: Option<int>)
    ensures t.articleStructureKey.None? ==> r == Some(0)
    ensures t.articleStructureKey.Some? ==> r == env.structureId(t.articleStructureKey.value, groupId, JournalArticleClass)
  {
    if t.articleStructureKey.None? then Some(0)
    else env.structureId(t.articleStructureKey.value, groupId, JournalArticleClass)
  }

  /** The key an article template is stored under: the run's group, the structure class. */
  function ArticleTemplateKey(env: Env, ctx: Ctx, t: ArticleTemplateDecl): EntityKey {
    EntityKey(ctx.groupId, env.classNameId(DDMStructureClass), t.key)
  }

  /**
   * What `addDDMTemplate(ArticleTemplate)` returns and leaves in the store. It
   * works in the thread-local group `ctx.groupId`.
   */
  function AddArticleTemplateSpec(db: Db, env: Env, ctx: Ctx, t: ArticleTemplateDecl): (r: After)
    ensures r.db.permissions == db.permissions
  {
    match env.siteDefaultLocale(ctx.groupId)
    case None => After(Thrown(PortalError), db)
    case Some(site) =>
      var nameMap := map[Some(site) := Some(TemplateName(t.name, t.key))];
      match env.fileContent(t.path)
      case None => After(Normal, db)
      case Some(script) =>
        match ArticleTemplateClassPK(env, t, ctx.groupId)
        case None => After(Normal, db)
        case Some(classPK) =>
          var k := ArticleTemplateKey(env, ctx, t);
          if k in db.templates then
            var tpl := db.templates[k];
            After(Normal, db.PutTemplate(k, tpl.(nameMap := nameMap, language := t.language, script := script,
                                                   classPK := classPK, cacheable := t.cacheable)))
          else
            After(Normal, db.NewTemplate(k, classPK, env.classNameId(JournalArticleClass), nameMap, map[],
                                         t.language, script, t.cacheable))
  }

  method AddArticleTemplate(store: ContentStore, env: Env, ctx: Ctx, t: ArticleTemplateDecl) returns (outcome: Outcome)
    modifies store
    ensures After(outcome, store.Snapshot()) == AddArticleTemplateSpec(old(store.Snapshot()), env, ctx, t)
  {
    var classNameId := env.classNameId(DDMStructureClass);
    var resourceClassnameId := env.classNameId(JournalArticleClass);
    var nameMap: LocaleMap := map[];
    var groupId := ctx.groupId;
    var siteDefaultLocale := env.siteDefaultLocale(groupId);
    if siteDefaultLocale.None? {
      return Thrown(PortalError);
    }
    var name := t.name;
    if name == None {
      name := Some(t.key);
    }
    nameMap := nameMap[siteDefaultLocale := name];
    var descMap: LocaleMap := map[];
    var script := env.fileContent(t.path);
    if script.None? {
      return Normal;
    }
    var classPK := 0;
    if t.articleStructureKey.Some? {
      var id := env.structureId(t.articleStructureKey.value, groupId, JournalArticleClass);
      if id.None? {
        return Normal;
      }
      classPK := id.value;
    }
    var k := EntityKey(groupId, classNameId, t.key);
    var ddmTemplate := store.FetchTemplate(k);
    if ddmTemplate.Some? {
      var tpl := ddmTemplate.value;
      tpl := tpl.(nameMap := nameMap);
      tpl := tpl.(language := t.language);
      tpl := tpl.(script := script.value);
      tpl := tpl.(classPK := classPK);
      tpl := tpl.(cacheable := t.cacheable);
      store.UpdateTemplate(k, tpl);
      return Normal;
    }
    var added := store.AddTemplate(k, classPK, resourceClassnameId, nameMap, descMap, t.language, script.value,
                                   t.cacheable);
    assert added;
    return Normal;
  }

  // ---------------------------------------------------------------------------
  // ADTs (application display templates)
  // ---------------------------------------------------------------------------

  /** The resource class of an ADT: `JournalArticle` when none (or a blank one) is declared. */
  function AdtResourceClassNameId(env: Env, t: AdtDecl): (r: int)
    ensures IsBlank(t.resourceClassName) ==> r == env.classNameId(JournalArticleClass)
    ensures !IsBlank(t.resourceClassName) ==> r == env.classNameId(t.resourceClassName.value)
  {
    if IsBlank(t.resourceClassName) then env.classNameId(JournalArticleClass)
    else env.classNameId(t.resourceClassName.value)
  }

  function AdtKey(env: Env, t: AdtDecl, groupId: int): EntityKey {
    EntityKey(groupId, env.classNameId(t.className), t.templateKey)
  }

  /** What `addDDMTemplate(Adt, groupId)` returns and leaves in the store. */
  function AddAdtSpec(db: Db, env: Env, t: AdtDecl, groupId: int): (r: After)
    ensures r.db.permissions == db.permissions
  {
    match env.siteDefaultLocale(groupId)
    case None => After(Thrown(PortalError), db)
    case Some(site) =>
      var nameMap := map[Some(site) := Some(TemplateName(t.name, t.templateKey))];
      var descMap := map[Some(site) := t.description];
      var k := AdtKey(env, t, groupId);
      match env.fileContent(t.path)
      case None => After(Thrown(IOError), db)
      case Some(script) =>
        if k in db.templates then
          var tpl := db.templates[k];
          After(Normal, db.PutTemplate(k, tpl.(language := t.language, nameMap := nameMap, descriptionMap := descMap,
                                                 classNameId := env.classNameId(t.className),
                                                 cacheable := t.cacheable, script := script)))
        else
          After(Normal, db.NewTemplate(k, 0, AdtResourceClassNameId(env, t), nameMap, descMap, t.language, script, true))
  }

  method AddAdt(store: ContentStore, env: Env, t: AdtDecl, groupId: int) returns (outcome: Outcome)
    modifies store
    ensures After(outcome, store.Snapshot()) == AddAdtSpec(old(store.Snapshot()), env, t, groupId)
  {
    var classNameId := env.classNameId(t.className);
    var resourceClassnameId := if IsBlank(t.resourceClassName) then env.classNameId(JournalArticleClass)
                               else env.classNameId(t.resourceClassName.value);
    var nameMap: LocaleMap := map[];
    var siteDefaultLocale := env.siteDefaultLocale(groupId);
    if siteDefaultLocale.None? {
      return Thrown(PortalError);
    }
    var name := t.name;
    if name == None {
      name := Some(t.templateKey);
    }
    nameMap := nameMap[siteDefaultLocale := name];
    var descriptionMap: LocaleMap := map[];
    descriptionMap := descriptionMap[siteDefaultLocale := t.description];
    var k := EntityKey(groupId, classNameId, t.templateKey);
    var ddmTemplate := store.FetchTemplate(k);
    var script := env.fileContent(t.path);
    if script.None? {
      return Thrown(IOError);
    }
    if ddmTemplate.Some? {
      var tpl := ddmTemplate.value;
      tpl := tpl.(language := t.language);
      tpl := tpl.(nameMap := nameMap);
      tpl := tpl.(descriptionMap := descriptionMap);
      tpl := tpl.(classNameId := env.classNameId(t.className));
      tpl := tpl.(cacheable := t.cacheable);
      tpl := tpl.(script := script.value);
      store.UpdateTemplate(k, tpl);
      return Normal;
    }
    var added := store.AddTemplate(k, 0, resourceClassnameId, nameMap, descriptionMap, t.language, script.value, true);
    assert added;
    return Normal;
  }

  // ---------------------------------------------------------------------------
  // Properties
  // ---------------------------------------------------------------------------

  /**
   * With the site locale known, an unreadable script or a declared structure
   * key that does not resolve ends the call normally before any template is
   * fetched, created or updated.
   */
  lemma ArticleTemplateFailureLeavesStore(db: Db, env: Env, ctx: Ctx, t: ArticleTemplateDecl)
    requires env.siteDefaultLocale(ctx.groupId).Some?
    requires env.fileContent(t.path).None? ||
             (t.articleStructureKey.Some? &&
              env.structureId(t.articleStructureKey.value, ctx.groupId, JournalArticleClass).None?)
    ensures AddArticleTemplateSpec(db, env, ctx, t) == After(Normal, db)
  {
  }

  /**
   * An existing article template gets exactly its name map, language, script,
   * classPK and cacheable flag overwritten; its id, class, resource class and
   * description map stay, and so does every other template.
   */
  lemma ArticleTemplateUpdateFields(db: Db, env: Env, ctx: Ctx, t: ArticleTemplateDecl)
    requires env.siteDefaultLocale(ctx.groupId).Some?
    requires env.fileContent(t.path).Some?
    requires ArticleTemplateClassPK(env, t, ctx.groupId).Some?
    requires ArticleTemplateKey(env, ctx, t) in db.templates
    ensures var r := AddArticleTemplateSpec(db, env, ctx, t);
            var k := ArticleTemplateKey(env, ctx, t);
            var was := db.templates[k];
            var now := r.db.templates[k];
            && r.outcome == Normal
            && r.db.templates.Keys == db.templates.Keys
            && (forall k' :: k' in db.templates && k' != k ==> r.db.templates[k'] == db.templates[k'])
            && now.templateId == was.templateId
            && now.classNameId == was.classNameId
            && now.resourceClassNameId == was.resourceClassNameId
            && now.descriptionMap == was.descriptionMap
            && now.nameMap == map[env.siteDefaultLocale(ctx.groupId) := Some(TemplateName(t.name, t.key))]
            && now.language == t.language
            && now.script == env.fileContent(t.path).value
            && now.classPK == ArticleTemplateClassPK(env, t, ctx.groupId).value
            && now.cacheable == t.cacheable
            && r.db.Tables() == db.Tables().PutTemplate(k, now)
  {
  }

  /**
   * A missing article template is created under the declared key with a fresh
   * id, the structure's class, the article resource class, the site-locale name
   * map, the declared language and cacheable flag and the script read from its
   * path; no other table changes.
   */
  lemma ArticleTemplateCreate(db: Db, env: Env, ctx: Ctx, t: ArticleTemplateDecl)
    requires env.siteDefaultLocale(ctx.groupId).Some?
    requires env.fileContent(t.path).Some?
    requires ArticleTemplateClassPK(env, t, ctx.groupId).Some?
    requires ArticleTemplateKey(env, ctx, t) !in db.templates
    ensures var r := AddArticleTemplateSpec(db, env, ctx, t);
            var k := ArticleTemplateKey(env, ctx, t);
            && r.outcome == Normal
            && r.db.templates.Keys == db.templates.Keys + {k}
            && (forall k' :: k' in db.templates ==> r.db.templates[k'] == db.templates[k'])
            && r.db.templates[k].templateId == db.nextId
            && r.db.templates[k].classPK == ArticleTemplateClassPK(env, t, ctx.groupId).value
            && r.db.templates[k].resourceClassNameId == env.classNameId(JournalArticleClass)
            && r.db.templates[k].cacheable == t.cacheable
            && r.db.templates[k].descriptionMap == map[]
            && r.db.templates[k].nameMap == map[env.siteDefaultLocale(ctx.groupId) := Some(TemplateName(t.name, t.key))]
            && r.db.templates[k].language == t.language
            && r.db.templates[k].script == env.fileContent(t.path).value
            && r.db.templates[k].classNameId == env.classNameId(DDMStructureClass)
            && r.db.nextId == db.nextId + 1
            && r.db.Tables() == db.Tables().(templates := r.db.templates, nextId := db.nextId + 1)
  {
  }

  /**
   * The only exception an article template upsert throws is the
   * `PortalException` of a missing site locale: the duplicate-key exception
   * the caller catches cannot arise, as the add follows a fetch of the same key.
   */
  lemma ArticleTemplateThrowsOnlyForLocale(db: Db, env: Env, ctx: Ctx, t: ArticleTemplateDecl)
    ensures var r := AddArticleTemplateSpec(db, env, ctx, t);
            r.outcome.Thrown? <==> env.siteDefaultLocale(ctx.groupId).None?
    ensures AddArticleTemplateSpec(db, env, ctx, t).outcome != Thrown(DuplicateTemplateKey)
  {
  }

  /** A template that already holds what the declaration says is left as it is. */
  lemma ArticleTemplateFixedPoint(db: Db, env: Env, ctx: Ctx, t: ArticleTemplateDecl)
    requires env.siteDefaultLocale(ctx.groupId).Some?
    requires env.fileContent(t.path).Some?
    requires ArticleTemplateClassPK(env, t, ctx.groupId).Some?
    requires ArticleTemplateKey(env, ctx, t) in db.templates
    requires var tpl := db.templates[ArticleTemplateKey(env, ctx, t)];
             && tpl.nameMap == map[env.siteDefaultLocale(ctx.groupId) := Some(TemplateName(t.name, t.key))]
             && tpl.language == t.language
             && tpl.script == env.fileContent(t.path).value
             && tpl.classPK == ArticleTemplateClassPK(env, t, ctx.groupId).value
             && tpl.cacheable == t.cacheable
    ensures AddArticleTemplateSpec(db, env, ctx, t) == After(Normal, db)
  {
    var k := ArticleTemplateKey(env, ctx, t);
    var tpl := db.templates[k];
    assert db.templates[k := tpl] == db.templates;
  }

  /** Running an article template upsert twice leaves what running it once left. */
  lemma ArticleTemplateIdempotent(db: Db, env: Env, ctx: Ctx, t: ArticleTemplateDecl)
    ensures var once := AddArticleTemplateSpec(db, env, ctx, t);
            AddArticleTemplateSpec(once.db, env, ctx, t) == once
  {
    var once := AddArticleTemplateSpec(db, env, ctx, t);
    if env.siteDefaultLocale(ctx.groupId).Some? && env.fileContent(t.path).Some?
       && ArticleTemplateClassPK(env, t, ctx.groupId).Some? {
      if ArticleTemplateKey(env, ctx, t) in db.templates {
        ArticleTemplateUpdateFields(db, env, ctx, t);
      } else {
        ArticleTemplateCreate(db, env, ctx, t);
      }
      ArticleTemplateFixedPoint(once.db, env, ctx, t);
    }
  }

  /**
   * An existing ADT takes the declared language, name and description maps,
   * class, `cacheable` flag and script; its id, resource class and classPK stay.
   */
  lemma AdtUpdateCopiesCacheable(db: Db, env: Env, t: AdtDecl, groupId: int)
    requires env.siteDefaultLocale(groupId).Some?
    requires env.fileContent(t.path).Some?
    requires AdtKey(env, t, groupId) in db.templates
    ensures var r := AddAdtSpec(db, env, t, groupId);
            var k := AdtKey(env, t, groupId);
            var site := env.siteDefaultLocale(groupId);
            && r.outcome == Normal
            && r.db.templates.Keys == db.templates.Keys
            && r.db.templates[k].cacheable == t.cacheable
            && r.db.templates[k].templateId == db.templates[k].templateId
            && r.db.templates[k].classPK == db.templates[k].classPK
            && r.db.templates[k].resourceClassNameId == db.templates[k].resourceClassNameId
            && r.db.templates[k].nameMap == map[site := Some(TemplateName(t.name, t.templateKey))]
            && r.db.templates[k].descriptionMap == map[site := t.description]
            && r.db.templates[k].script == env.fileContent(t.path).value
            && r.db.templates[k].language == t.language
            && r.db.templates[k].classNameId == env.classNameId(t.className)
            && r.db.Tables() == db.Tables().PutTemplate(k, r.db.templates[k])
  {
  }

  /** A newly created ADT is always cacheable, has classPK 0 and the defaulted resource class. */
  lemma AdtCreateIsCacheable(db: Db, env: Env, t: AdtDecl, groupId: int)
    requires env.siteDefaultLocale(groupId).Some?
    requires env.fileContent(t.path).Some?
    requires AdtKey(env, t, groupId) !in db.templates
    ensures var r := AddAdtSpec(db, env, t, groupId);
            var k := AdtKey(env, t, groupId);
            && r.outcome == Normal
            && r.db.templates.Keys == db.templates.Keys + {k}
            && (forall k' :: k' in db.templates ==> r.db.templates[k'] == db.templates[k'])
            && r.db.templates[k].cacheable
            && r.db.templates[k].classPK == 0
            && r.db.templates[k].templateId == db.nextId
            && r.db.templates[k].resourceClassNameId == AdtResourceClassNameId(env, t)
  {
  }

  /** An unreadable ADT script throws `IOException` and leaves the store as it was. */
  lemma AdtReadFailure(db: Db, env: Env, t: AdtDecl, groupId: int)
    requires env.siteDefaultLocale(groupId).Some?
    requires env.fileContent(t.path).None?
    ensures AddAdtSpec(db, env, t, groupId) == After(Thrown(IOError), db)
  {
  }

  /** An ADT that already holds what the declaration says is left as it is. */
  lemma AdtFixedPoint(db: Db, env: Env, t: AdtDecl, groupId: int)
    requires env.siteDefaultLocale(groupId).Some?
    requires env.fileContent(t.path).Some?
    requires AdtKey(env, t, groupId) in db.templates
    requires var tpl := db.templates[AdtKey(env, t, groupId)];
             var site := env.siteDefaultLocale(groupId);
             && tpl.nameMap == map[site := Some(TemplateName(t.name, t.templateKey))]
             && tpl.descriptionMap == map[site := t.description]
             && tpl.language == t.language
             && tpl.classNameId == env.classNameId(t.className)
             && tpl.script == env.fileContent(t.path).value
             && tpl.cacheable == t.cacheable
    ensures AddAdtSpec(db, env, t, groupId) == After(Normal, db)
  {
    var k := AdtKey(env, t, groupId);
    var tpl := db.templates[k];
    assert db.templates[k := tpl] == db.templates;
  }

  /** What one successful ADT run leaves under its key, whatever the flag ends up as. */
  lemma AdtSaved(db: Db, env: Env, t: AdtDecl, groupId: int)
    requires env.siteDefaultLocale(groupId).Some?
    requires env.fileContent(t.path).Some?
    ensures var r := AddAdtSpec(db, env, t, groupId);
            var k := AdtKey(env, t, groupId);
            var site := env.siteDefaultLocale(groupId);
            && r.outcome == Normal
            && k in r.db.templates
            && r.db.templates[k].nameMap == map[site := Some(TemplateName(t.name, t.templateKey))]
            && r.db.templates[k].descriptionMap == map[site := t.description]
            && r.db.templates[k].language == t.language
            && r.db.templates[k].classNameId == env.classNameId(t.className)
            && r.db.templates[k].script == env.fileContent(t.path).value
            && (k in db.templates ==> r.db.templates[k].cacheable == t.cacheable)
  {
    if AdtKey(env, t, groupId) in db.templates {
      AdtUpdateCopiesCacheable(db, env, t, groupId);
    } else {
      AdtCreateIsCacheable(db, env, t, groupId);
    }
  }

  /**
   * A second ADT run is a fixed point: the third run leaves what the second
   * left. (The first is not always one; see `AdtNotCacheableNeedsTwoRuns`.)
   */
  lemma AdtStableAfterSecondRun(db: Db, env: Env, t: AdtDecl, groupId: int)
    ensures var once := AddAdtSpec(db, env, t, groupId);
            var twice := AddAdtSpec(once.db, env, t, groupId);
            AddAdtSpec(twice.db, env, t, groupId) == twice
  {
    var once := AddAdtSpec(db, env, t, groupId);
    var twice := AddAdtSpec(once.db, env, t, groupId);
    if env.siteDefaultLocale(groupId).Some? && env.fileContent(t.path).Some? {
      AdtSaved(db, env, t, groupId);
      AdtSaved(once.db, env, t, groupId);
      AdtFixedPoint(twice.db, env, t, groupId);
    }
  }

  /** A cacheable ADT is stable after its first run. */
  lemma AdtCacheableIdempotent(db: Db, env: Env, t: AdtDecl, groupId: int)
    requires t.cacheable
    ensures var once := AddAdtSpec(db, env, t, groupId);
            AddAdtSpec(once.db, env, t, groupId) == once
  {
    var once := AddAdtSpec(db, env, t, groupId);
    if env.siteDefaultLocale(groupId).Some? && env.fileContent(t.path).Some? {
      AdtSaved(db, env, t, groupId);
      if AdtKey(env, t, groupId) !in db.templates {
        AdtCreateIsCacheable(db, env, t, groupId);
      }
      AdtFixedPoint(once.db, env, t, groupId);
    }
  }

  /**
   * A new ADT declared not cacheable is created cacheable and only turned
   * off by the second run, so its first run is not a fixed point.
   */
  lemma AdtNotCacheableNeedsTwoRuns(db: Db, env: Env, t: AdtDecl, groupId: int)
    requires !t.cacheable
    requires env.siteDefaultLocale(groupId).Some?
    requires env.fileContent(t.path).Some?
    requires AdtKey(env, t, groupId) !in db.templates
    ensures var once := AddAdtSpec(db, env, t, groupId);
            var twice := AddAdtSpec(once.db, env, t, groupId);
            var k := AdtKey(env, t, groupId);
            && once.db.templates[k].cacheable
            && !twice.db.templates[k].cacheable
            && twice != once
  {
    var once := AddAdtSpec(db, env, t, groupId);
    AdtCreateIsCacheable(db, env, t, groupId);
    AdtUpdateCopiesCacheable(once.db, env, t, groupId);
  }
}

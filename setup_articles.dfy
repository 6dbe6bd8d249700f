/** The two drivers of `SetupArticles`: structures and templates, then articles, ADTs and record sets. */
module SetupArticles {
  import opened Wrappers
  import opened Model
  import opened Store
  import opened DriverLoop
  import opened StructureUpsert
  import opened TemplateUpsert
  import opened ArticleUpsert
  import opened RecordSetUpsert

  // ---------------------------------------------------------------------------
  // One step per declared item
  // ---------------------------------------------------------------------------

  /** `addDDMStructure` for one structure; it never throws. */
  function StructureStep(env: Env, groupId: int, classNameId: int): (Db, StructureDecl) -> After {
    (d: Db, s: StructureDecl) => After(Normal, AddDDMStructureSpec(d, env, s, groupId, classNameId))
  }

  function ArticleTemplateStep(env: Env, ctx: Ctx): (Db, ArticleTemplateDecl) -> After {
    (d: Db, t: ArticleTemplateDecl) => AddArticleTemplateSpec(d, env, ctx, t)
  }

  function ArticleStep(env: Env, groupId: int, companyId: int): (Db, ArticleDecl) -> After {
    (d: Db, a: ArticleDecl) => AddJournalArticleSpec(d, env, a, groupId, companyId)
  }

  function AdtStep(env: Env, groupId: int): (Db, AdtDecl) -> After {
    (d: Db, t: AdtDecl) => AddAdtSpec(d, env, t, groupId)
  }

  function RecordSetStep(env: Env, groupId: int): (Db, RecordSetDecl) -> After {
    (d: Db, r: RecordSetDecl) => AddDDLRecordSetSpec(d, env, r, groupId)
  }

  /** The template loop catches duplicate template keys only. */
  predicate DuplicateCaught(e: Exc) {
    e == DuplicateTemplateKey
  }

  /** The ADT loop catches duplicate template keys and read failures. */
  predicate DuplicateOrIOCaught(e: Exc) {
    e == DuplicateTemplateKey || e == IOError
  }

  // ---------------------------------------------------------------------------
  // setupSiteStructuresAndTemplates
  // ---------------------------------------------------------------------------

  /**
   * What `setupSiteStructuresAndTemplates(site, groupId)` returns and leaves
   * behind. The DDL-structure block is guarded by the article-structure list:
   * it is skipped when that list is `null`, and dereferences a `null` DDL list
   * when it is not. Templates are added in the thread-local group `ctx.groupId`.
   */
  function SetupSiteStructuresAndTemplatesSpec(db: Db, env: Env, ctx: Ctx, site: SiteDecl, groupId: int): (r: After)
    ensures r.outcome.Thrown? ==> r.outcome.exc == NullPointer || r.outcome.exc == PortalError
    ensures r.outcome == Thrown(NullPointer) <==> site.articleStructures.Some? && site.ddlStructures.None?
  {
    var afterArticle :=
      if site.articleStructures.Some?
      then RunEach(db, StructureStep(env, groupId, env.classNameId(JournalArticleClass)), NoneCaught,
                   site.articleStructures.value).db
      else db;
    if site.articleStructures.Some? && site.ddlStructures.None? then After(Thrown(NullPointer), afterArticle)
    else
      var afterDdl :=
        if site.articleStructures.Some?
        then RunEach(afterArticle, StructureStep(env, groupId, env.classNameId(DDLRecordSetClass)), NoneCaught,
                     site.ddlStructures.value).db
        else afterArticle;
      if site.articleTemplates.Some?
      then
        RunEachThrowsOnly(afterDdl, ArticleTemplateStep(env, ctx), DuplicateCaught, site.articleTemplates.value,
                          (e: Exc) => e == PortalError);
        RunEach(afterDdl, ArticleTemplateStep(env, ctx), DuplicateCaught, site.articleTemplates.value)
      else After(Normal, afterDdl)
  }

  /** Adds each structure in order, with the given class name id. */
  method AddStructures(store: ContentStore, env: Env, ss: seq<StructureDecl>, groupId: int, classNameId: int)
    modifies store
    ensures After(Normal, store.Snapshot()) == RunEach(old(store.Snapshot()), StructureStep(env, groupId, classNameId), NoneCaught, ss)
  {
    ghost var goal := RunEach(store.Snapshot(), StructureStep(env, groupId, classNameId), NoneCaught, ss);
    for i := 0 to |ss|
      invariant RunEach(store.Snapshot(), StructureStep(env, groupId, classNameId), NoneCaught, ss[i..]) == goal
    {
      assert ss[i..][1..] == ss[i + 1..];
      AddDDMStructure(store, env, ss[i], groupId, classNameId);
    }
  }

  method SetupSiteStructuresAndTemplates(store: ContentStore, env: Env, ctx: Ctx, site: SiteDecl, groupId: int)
    returns (outcome: Outcome)
    modifies store
    ensures After(outcome, store.Snapshot())
         == SetupSiteStructuresAndTemplatesSpec(old(store.Snapshot()), env, ctx, site, groupId)
  {
    var articleStructures := site.articleStructures;
    if articleStructures.Some? {
      var classNameId := env.classNameId(JournalArticleClass);
      AddStructures(store, env, articleStructures.value, groupId, classNameId);
    }
    var ddlStructures := site.ddlStructures;
    if articleStructures.Some? {
      var classNameId := env.classNameId(DDLRecordSetClass);
      if ddlStructures.None? {
        return Thrown(NullPointer);
      }
      AddStructures(store, env, ddlStructures.value, groupId, classNameId);
    }
    var articleTemplates := site.articleTemplates;
    if articleTemplates.Some? {
      var ts := articleTemplates.value;
      ghost var goal := RunEach(store.Snapshot(), ArticleTemplateStep(env, ctx), DuplicateCaught, ts);
      for i := 0 to |ts|
        invariant RunEach(store.Snapshot(), ArticleTemplateStep(env, ctx), DuplicateCaught, ts[i..]) == goal
      {
        assert ts[i..][1..] == ts[i + 1..];
        var r := AddArticleTemplate(store, env, ctx, ts[i]);
        if r.Thrown? && r.exc != DuplicateTemplateKey {
          return r;
        }
      }
    }
    return Normal;
  }

  // ---------------------------------------------------------------------------
  // setupSiteArticles
  // ---------------------------------------------------------------------------

  /**
   * What `setupSiteArticles(articles, adts, recordSets, groupId)` returns and
   * leaves behind: articles (any exception leaves), then ADTs (duplicates and
   * read failures are logged), then record sets (duplicate template keys are
   * logged). A `null` list is skipped.
   */
  function SetupSiteArticlesSpec(db: Db, env: Env, ctx: Ctx, articles: Option<seq<ArticleDecl>>,
                                 adts: Option<seq<AdtDecl>>, recordSets: Option<seq<RecordSetDecl>>, groupId: int)
    : (r: After)
    ensures r.outcome.Thrown? ==> r.outcome.exc == NullPointer || r.outcome.exc == PortalError
    ensures r.outcome == Thrown(NullPointer) ==> articles.Some?
  {
    var r1 := if articles.Some? then
                ArticlesThrowOnly(db, env, groupId, ctx.companyId, articles.value);
                RunEach(db, ArticleStep(env, groupId, ctx.companyId), NoneCaught, articles.value)
              else After(Normal, db);
    if r1.outcome.Thrown? then r1
    else
      var r2 := if adts.Some? then
                  AdtsThrowOnly(r1.db, env, groupId, adts.value);
                  RunEach(r1.db, AdtStep(env, groupId), DuplicateOrIOCaught, adts.value)
                else After(Normal, r1.db);
      if r2.outcome.Thrown? then r2
      else if recordSets.Some? then
        RecordSetsThrowOnly(r2.db, env, groupId, recordSets.value);
        RunEach(r2.db, RecordSetStep(env, groupId), DuplicateCaught, recordSets.value)
      else After(Normal, r2.db)
  }

  method SetupSiteArticles(store: ContentStore, env: Env, ctx: Ctx, articles: Option<seq<ArticleDecl>>,
                           adts: Option<seq<AdtDecl>>, recordSets: Option<seq<RecordSetDecl>>, groupId: int)
    returns (outcome: Outcome)
    modifies store
    ensures After(outcome, store.Snapshot())
         == SetupSiteArticlesSpec(old(store.Snapshot()), env, ctx, articles, adts, recordSets, groupId)
  {
    if articles.Some? {
      var items := articles.value;
      ghost var goal := RunEach(store.Snapshot(), ArticleStep(env, groupId, ctx.companyId), NoneCaught, items);
      for i := 0 to |items|
        invariant RunEach(store.Snapshot(), ArticleStep(env, groupId, ctx.companyId), NoneCaught, items[i..]) == goal
      {
        assert items[i..][1..] == items[i + 1..];
        var r := AddJournalArticle(store, env, items[i], groupId, ctx.companyId);
        if r.Thrown? {
          return r;
        }
      }
    }
    if adts.Some? {
      var ts := adts.value;
      ghost var goal := RunEach(store.Snapshot(), AdtStep(env, groupId), DuplicateOrIOCaught, ts);
      for i := 0 to |ts|
        invariant RunEach(store.Snapshot(), AdtStep(env, groupId), DuplicateOrIOCaught, ts[i..]) == goal
      {
        assert ts[i..][1..] == ts[i + 1..];
        var r := AddAdt(store, env, ts[i], groupId);
        if r.Thrown? && r.exc != DuplicateTemplateKey && r.exc != IOError {
          return r;
        }
      }
    }
    if recordSets.Some? {
      var rs := recordSets.value;
      ghost var goal := RunEach(store.Snapshot(), RecordSetStep(env, groupId), DuplicateCaught, rs);
      for i := 0 to |rs|
        invariant RunEach(store.Snapshot(), RecordSetStep(env, groupId), DuplicateCaught, rs[i..]) == goal
      {
        assert rs[i..][1..] == rs[i + 1..];
        var r := AddDDLRecordSet(store, env, rs[i], groupId);
        if r.Thrown? && r.exc != DuplicateTemplateKey {
          return r;
        }
      }
    }
    return Normal;
  }

  // ---------------------------------------------------------------------------
  // Properties
  // ---------------------------------------------------------------------------

  /** The template loop touches only templates. */
  lemma TemplatesKeepOtherTables(db: Db, env: Env, ctx: Ctx, ts: seq<ArticleTemplateDecl>)
    ensures var r := RunEach(db, ArticleTemplateStep(env, ctx), DuplicateCaught, ts);
            r.db.(templates := db.templates, nextId := db.nextId) == db
  {
    RunEachKeeps(db, ArticleTemplateStep(env, ctx), DuplicateCaught, ts,
                 (d: Db) => d.(templates := map[], nextId := 0));
  }

  /**
   * Without an article-structure list no structure is added, not even a
   * declared DDL structure, and the missing DDL list is never dereferenced.
   */
  lemma DdlSkippedWithoutArticleStructures(db: Db, env: Env, ctx: Ctx, site: SiteDecl, groupId: int)
    requires site.articleStructures.None?
    ensures var r := SetupSiteStructuresAndTemplatesSpec(db, env, ctx, site, groupId);
            && r.db.structures == db.structures
            && r.db.permissions == db.permissions
            && r.outcome != Thrown(NullPointer)
  {
    if site.articleTemplates.Some? {
      var ts := site.articleTemplates.value;
      TemplatesKeepOtherTables(db, env, ctx, ts);
      RunEachThrowsOnly(db, ArticleTemplateStep(env, ctx), DuplicateCaught, ts, (e: Exc) => e == PortalError);
    }
  }

  /**
   * With an article-structure list but no DDL list, the article structures
   * are added and the driver then throws `NullPointerException`; no template
   * is processed.
   */
  lemma MissingDdlListThrows(db: Db, env: Env, ctx: Ctx, site: SiteDecl, groupId: int)
    requires site.articleStructures.Some? && site.ddlStructures.None?
    ensures var r := SetupSiteStructuresAndTemplatesSpec(db, env, ctx, site, groupId);
            && r.outcome == Thrown(NullPointer)
            && r.db == RunEach(db, StructureStep(env, groupId, env.classNameId(JournalArticleClass)), NoneCaught,
                               site.articleStructures.value).db
            && r.db.templates == db.templates
  {
    RunEachKeeps(db, StructureStep(env, groupId, env.classNameId(JournalArticleClass)), NoneCaught,
                 site.articleStructures.value, (d: Db) => d.templates);
  }

  /** The article loop can only end with the related-asset `NullPointerException`. */
  lemma ArticlesThrowOnly(db: Db, env: Env, groupId: int, companyId: int, articles: seq<ArticleDecl>)
    ensures var r := RunEach(db, ArticleStep(env, groupId, companyId), NoneCaught, articles);
            r.outcome.Thrown? ==> r.outcome.exc == NullPointer
  {
    RunEachThrowsOnly(db, ArticleStep(env, groupId, companyId), NoneCaught, articles, (e: Exc) => e == NullPointer);
  }

  /** The ADT loop lets only a site locale failure out. */
  lemma AdtsThrowOnly(db: Db, env: Env, groupId: int, adts: seq<AdtDecl>)
    ensures var r := RunEach(db, AdtStep(env, groupId), DuplicateOrIOCaught, adts);
            r.outcome.Thrown? ==> r.outcome.exc == PortalError
  {
    RunEachThrowsOnly(db, AdtStep(env, groupId), DuplicateOrIOCaught, adts, (e: Exc) => e == PortalError || e == IOError);
  }

  /** The record-set loop lets every `PortalException` out. */
  lemma RecordSetsThrowOnly(db: Db, env: Env, groupId: int, recordSets: seq<RecordSetDecl>)
    ensures var r := RunEach(db, RecordSetStep(env, groupId), DuplicateCaught, recordSets);
            r.outcome.Thrown? ==> r.outcome.exc == PortalError
  {
    RunEachThrowsOnly(db, RecordSetStep(env, groupId), DuplicateCaught, recordSets, (e: Exc) => e == PortalError);
  }

  /**
   * An article that throws stops the driver: no ADT and no record set is
   * processed after it.
   */
  lemma ArticleFailureStopsDriver(db: Db, env: Env, ctx: Ctx, articles: seq<ArticleDecl>,
                                  adts: Option<seq<AdtDecl>>, recordSets: Option<seq<RecordSetDecl>>, groupId: int)
    requires RunEach(db, ArticleStep(env, groupId, ctx.companyId), NoneCaught, articles).outcome.Thrown?
    ensures var r := SetupSiteArticlesSpec(db, env, ctx, Some(articles), adts, recordSets, groupId);
            && r.outcome == Thrown(NullPointer)
            && r.db.templates == db.templates
            && r.db.recordSets == db.recordSets
  {
    ArticlesThrowOnly(db, env, groupId, ctx.companyId, articles);
    RunEachKeeps(db, ArticleStep(env, groupId, ctx.companyId), NoneCaught, articles,
                 (d: Db) => (d.templates, d.recordSets));
  }
}

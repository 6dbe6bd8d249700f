/** `SetupArticles.addJournalArticle`: create or overwrite one web-content article. */
module ArticleUpsert {
  import opened Wrappers
  import opened JavaLang
  import opened Model
  import opened Store
  import opened Permissions
  import opened RelatedAssets

  /**
   * The folder an article goes into: the web folder its non-empty folder path
   * names, or the root folder (0) when there is no path or it is not found.
   */
  function ArticleFolderId(env: Env, groupId: int, a: ArticleDecl): (id: int)
    ensures !IsNonEmpty(a.folderPath) ==> id == 0
    ensures IsNonEmpty(a.folderPath) ==>
              match env.findWebFolder(groupId, a.folderPath.value, Some(""))
              case None => id == 0
              case Some(f) => id == f
  {
    if IsNonEmpty(a.folderPath) then
      match env.findWebFolder(groupId, a.folderPath.value, Some(""))
      case None => 0
      case Some(f) => f
    else 0
  }

  /**
   * The article content: the file at the declared path with its placeholders
   * resolved, or `null` when the file cannot be read.
   */
  function ArticleContent(env: Env, groupId: int, companyId: int, a: ArticleDecl): (c: JString)
    ensures c.None? <==> env.fileContent(a.path).None?
    ensures c.Some? ==> c.value == env.lookupAll(groupId, companyId, env.fileContent(a.path).value)
  {
    match env.fileContent(a.path)
    case None => None
    case Some(text) => Some(env.lookupAll(groupId, companyId, text))
  }

  /**
   * A translation map completed with the content's default locale: an
   * existing translation for it is kept, a missing one becomes `fallback`.
   */
  function CompleteLocaleMap(m: LocaleMap, loc: Locale, fallback: JString): (r: LocaleMap)
    ensures r.Keys == m.Keys + {Some(loc)}
    ensures forall l :: l in m ==> r[l] == m[l]
    ensures Some(loc) !in m ==> r[Some(loc)] == fallback
  {
    if Some(loc) in m then m else m[Some(loc) := fallback]
  }

  /** What an upsert writes into the article: folder, content and the two localized maps. */
  datatype Prepared = Prepared(folderId: int, content: JString, titleMap: LocaleMap, descMap: Option<LocaleMap>)

  /**
   * The values `addJournalArticle` computes before it touches the store. The
   * title map always covers the content's default locale; the description map
   * is `null` exactly when the description is `null` or empty, and otherwise
   * covers that locale too.
   */
  function Prepare(env: Env, groupId: int, companyId: int, a: ArticleDecl): (p: Prepared)
    ensures p.folderId == ArticleFolderId(env, groupId, a)
    ensures p.content == ArticleContent(env, groupId, companyId, a)
    ensures var loc := env.contentDefaultLocale(p.content);
            && p.titleMap == CompleteLocaleMap(env.translationMap(a.titleTranslations, groupId, a.title), loc, a.title)
            && Some(loc) in p.titleMap
    ensures p.descMap.None? <==> !IsNonEmpty(a.description)
    ensures p.descMap.Some? ==>
              var loc := env.contentDefaultLocale(p.content);
              && p.descMap.value == CompleteLocaleMap(env.translationMap(a.descriptionTranslations, groupId, a.description),
                                                      loc, a.description)
              && Some(loc) in p.descMap.value
  {
    var content := ArticleContent(env, groupId, companyId, a);
    var loc := env.contentDefaultLocale(content);
    var titleMap := CompleteLocaleMap(env.translationMap(a.titleTranslations, groupId, a.title), loc, a.title);
    var descMap :=
      if IsNonEmpty(a.description)
      then Some(CompleteLocaleMap(env.translationMap(a.descriptionTranslations, groupId, a.description), loc, a.description))
      else None;
    Prepared(ArticleFolderId(env, groupId, a), content, titleMap, descMap)
  }

  /** An existing article overwritten with freshly prepared values, moved into their folder. */
  function Refreshed(ja: ArticleRec, p: Prepared): ArticleRec {
    ja.(titleMap := p.titleMap, content := p.content, descriptionMap := p.descMap, folderId := p.folderId)
  }

  /** The key a new article gets: the declared id, or a generated one when it is empty. */
  function NewArticleKey(db: Db, a: ArticleDecl, groupId: int): ArticleKey {
    ArticleKey(groupId, if a.articleId == "" then DecimalString(db.nextId) else a.articleId)
  }

  /** What follows the write: related assets, then the article's permissions. */
  function FinishArticle(db: Db, env: Env, a: ArticleDecl, groupId: int, companyId: int, resourcePrimKey: nat)
    : (r: After)
    ensures r.db.(links := db.links, permissions := db.permissions) == db
    ensures db.permissions <= r.db.permissions
    ensures r.outcome == Normal || r.outcome == Thrown(NullPointer)
  {
    var r := ProcessRelatedAssetsSpec(db, env, a.relatedAssets, resourcePrimKey, groupId, companyId);
    if r.outcome.Thrown? then r
    else After(Normal, r.db.Grant(PermissionCall(JournalArticleClass, resourcePrimKey, a.rolePermissions, ArticleDefaults)))
  }

  /**
   * What `addJournalArticle` returns and leaves in the store. An empty article
   * id is never looked up: the article is always added, under a generated id.
   * An add that the store refuses is a `PortalException` the method catches.
   */
  function AddJournalArticleSpec(db: Db, env: Env, a: ArticleDecl, groupId: int, companyId: int): (r: After)
    ensures r.outcome == Normal || r.outcome == Thrown(NullPointer)
    ensures r.db.structures == db.structures && r.db.templates == db.templates && r.db.recordSets == db.recordSets
    ensures db.permissions <= r.db.permissions
    ensures db.articles.Keys <= r.db.articles.Keys
    ensures db.nextId <= r.db.nextId
  {
    var p := Prepare(env, groupId, companyId, a);
    var k := ArticleKey(groupId, a.articleId);
    if a.articleId != "" && k in db.articles then
      var ja := db.articles[k];
      FinishArticle(db.PutArticle(k, Refreshed(ja, p)), env, a, groupId, companyId, ja.resourcePrimKey)
    else
      var nk := NewArticleKey(db, a, groupId);
      // Only a generated id can already be taken here; its counter value is spent.
      if nk in db.articles then After(Normal, db.SkipId())
      else
        FinishArticle(db.NewArticle(nk, p.folderId, p.titleMap, p.descMap, p.content, a.structureKey, a.templateKey),
                      env, a, groupId, companyId, db.nextId)
  }

  /** The first half of `addJournalArticle`: folder, content and localized maps. */
  method PrepareArticle(env: Env, groupId: int, companyId: int, a: ArticleDecl) returns (p: Prepared)
    ensures p == Prepare(env, groupId, companyId, a)
  {
    var content: JString := None;
    var folderId := 0;
    if a.folderPath.Some? && a.folderPath.value != "" {
      var jf := env.findWebFolder(groupId, a.folderPath.value, Some(""));
      if jf.Some? {
        folderId := jf.value;
      }
    }
    var file := env.fileContent(a.path);
    if file.Some? {
      content := Some(env.lookupAll(groupId, companyId, file.value));
    }
    var titleMap := env.translationMap(a.titleTranslations, groupId, a.title);
    var articleDefaultLocale := env.contentDefaultLocale(content);
    if Some(articleDefaultLocale) !in titleMap {
      titleMap := titleMap[Some(articleDefaultLocale) := a.title];
    }
    var descriptionMap: Option<LocaleMap> := None;
    if a.description.Some? && a.description.value != "" {
      var m := env.translationMap(a.descriptionTranslations, groupId, a.description);
      if Some(articleDefaultLocale) !in m {
        m := m[Some(articleDefaultLocale) := a.description];
      }
      descriptionMap := Some(m);
    }
    p := Prepared(folderId, content, titleMap, descriptionMap);
  }

  method AddJournalArticle(store: ContentStore, env: Env, a: ArticleDecl, groupId: int, companyId: int)
    returns (outcome: Outcome)
    modifies store
    ensures After(outcome, store.Snapshot()) == AddJournalArticleSpec(old(store.Snapshot()), env, a, groupId, companyId)
  {
    var p := PrepareArticle(env, groupId, companyId, a);
    var folderId, content, titleMap, descriptionMap := p.folderId, p.content, p.titleMap, p.descMap;
    ghost var start := store.Snapshot();
    var journalArticle: Option<ArticleRec> := None;
    var generatedId := a.articleId == "";
    if !generatedId {
      journalArticle := store.FetchLatestArticle(ArticleKey(groupId, a.articleId));
    }
    var resourcePrimKey: nat;
    if journalArticle.None? {
      var k, added := store.AddArticle(groupId, a.articleId, generatedId, folderId, titleMap, descriptionMap,
                                       content, a.structureKey, a.templateKey);
      if !added {
        return Normal;
      }
      resourcePrimKey := store.articles[k].resourcePrimKey;
      assert resourcePrimKey == start.nextId;
    } else {
      var ja := journalArticle.value;
      var k := ArticleKey(groupId, a.articleId);
      store.UpdateArticle(k, ja.(titleMap := titleMap, content := content, descriptionMap := descriptionMap));
      if ja.folderId != folderId {
        store.MoveArticle(k, folderId);
      }
      resourcePrimKey := ja.resourcePrimKey;
      assert store.Snapshot() == start.PutArticle(k, Refreshed(ja, p));
    }
    assert AddJournalArticleSpec(start, env, a, groupId, companyId)
        == FinishArticle(store.Snapshot(), env, a, groupId, companyId, resourcePrimKey);
    outcome := ProcessRelatedAssets(store, env, a.relatedAssets, resourcePrimKey, groupId, companyId);
    if outcome.Thrown? {
      return;
    }
    store.UpdatePermission(PermissionCall(JournalArticleClass, resourcePrimKey, a.rolePermissions, ArticleDefaults));
    return Normal;
  }

  // ---------------------------------------------------------------------------
  // Properties
  // ---------------------------------------------------------------------------

  /**
   * The steps after the write touch only the links and the permission log,
   * and grant the article's permissions exactly when they end normally.
   */
  lemma FinishOnlyLinksAndPermissions(db: Db, env: Env, a: ArticleDecl, groupId: int, companyId: int, resourcePrimKey: nat)
    ensures var r := FinishArticle(db, env, a, groupId, companyId, resourcePrimKey);
            && r.db.(links := db.links, permissions := db.permissions) == db
            && r.outcome == RelatedOutcome(db.entries, env, a.relatedAssets, resourcePrimKey, groupId, companyId)
            && r.db.permissions == db.permissions
                 + (if r.outcome == Normal
                    then [PermissionCall(JournalArticleClass, resourcePrimKey, a.rolePermissions, ArticleDefaults)]
                    else [])
  {
    ProcessRelatedAssetsReference(db, env, a.relatedAssets, resourcePrimKey, groupId, companyId);
  }

  /**
   * An explicit id names the article to overwrite: an existing one keeps its
   * key, resource key, structure and template, takes the prepared title,
   * content and description, and moves to the prepared folder; no other
   * article changes and none is added.
   */
  lemma ExplicitIdUpdatesInPlace(db: Db, env: Env, a: ArticleDecl, groupId: int, companyId: int)
    requires a.articleId != ""
    requires ArticleKey(groupId, a.articleId) in db.articles
    ensures var k := ArticleKey(groupId, a.articleId);
            var r := AddJournalArticleSpec(db, env, a, groupId, companyId);
            var ja := db.articles[k];
            var p := Prepare(env, groupId, companyId, a);
            && r.db.articles == db.articles[k := ja.(titleMap := p.titleMap, content := p.content,
                                                     descriptionMap := p.descMap, folderId := p.folderId)]
            && r.db.entries == db.entries
            && r.db.nextId == db.nextId
  {
    var k := ArticleKey(groupId, a.articleId);
    var p := Prepare(env, groupId, companyId, a);
    FinishOnlyLinksAndPermissions(db.PutArticle(k, Refreshed(db.articles[k], p)), env, a, groupId, companyId,
                                  db.articles[k].resourcePrimKey);
  }

  /** An explicit id not in use: the article is added under exactly that id, with a fresh resource key. */
  lemma ExplicitIdCreatesWhenMissing(db: Db, env: Env, a: ArticleDecl, groupId: int, companyId: int)
    requires a.articleId != ""
    requires ArticleKey(groupId, a.articleId) !in db.articles
    ensures var k := ArticleKey(groupId, a.articleId);
            var r := AddJournalArticleSpec(db, env, a, groupId, companyId);
            var p := Prepare(env, groupId, companyId, a);
            && r.db.articles == db.articles[k := ArticleRec(db.nextId, p.folderId, p.titleMap, p.descMap, p.content,
                                                            a.structureKey, a.templateKey)]
            && AssetKey(JournalArticleClass, db.nextId) in r.db.entries
            && r.db.entries[AssetKey(JournalArticleClass, db.nextId)] == db.nextId + 1
  {
    var k := ArticleKey(groupId, a.articleId);
    var p := Prepare(env, groupId, companyId, a);
    FinishOnlyLinksAndPermissions(db.NewArticle(k, p.folderId, p.titleMap, p.descMap, p.content, a.structureKey,
                                                a.templateKey), env, a, groupId, companyId, db.nextId);
  }

  /**
   * An empty id never overwrites: every stored article stays as it was, and
   * at most the one article under the generated id is added.
   */
  lemma GeneratedIdNeverOverwrites(db: Db, env: Env, a: ArticleDecl, groupId: int, companyId: int)
    requires a.articleId == ""
    ensures var r := AddJournalArticleSpec(db, env, a, groupId, companyId);
            var nk := ArticleKey(groupId, DecimalString(db.nextId));
            && (forall k :: k in db.articles ==> k in r.db.articles && r.db.articles[k] == db.articles[k])
            && r.db.articles.Keys == db.articles.Keys + (if nk in db.articles then {} else {nk})
            && (nk !in db.articles ==> r.db.articles[nk].resourcePrimKey == db.nextId && r.db.nextId == db.nextId + 2)
            && (nk in db.articles ==> r == After(Normal, db.(nextId := db.nextId + 1)))
  {
    var nk := ArticleKey(groupId, DecimalString(db.nextId));
    var p := Prepare(env, groupId, companyId, a);
    if nk !in db.articles {
      FinishOnlyLinksAndPermissions(db.NewArticle(nk, p.folderId, p.titleMap, p.descMap, p.content, a.structureKey,
                                                  a.templateKey), env, a, groupId, companyId, db.nextId);
    }
  }

  /**
   * Running the same article with an empty id twice adds two distinct
   * articles when both generated ids are free: generated ids do not make
   * a re-run converge.
   */
  lemma GeneratedIdRunsTwiceAddsTwo(db: Db, env: Env, a: ArticleDecl, groupId: int, companyId: int)
    requires a.articleId == ""
    requires ArticleKey(groupId, DecimalString(db.nextId)) !in db.articles
    requires ArticleKey(groupId, DecimalString(db.nextId + 2)) !in db.articles
    ensures var once := AddJournalArticleSpec(db, env, a, groupId, companyId);
            var twice := AddJournalArticleSpec(once.db, env, a, groupId, companyId);
            var k1 := ArticleKey(groupId, DecimalString(db.nextId));
            var k2 := ArticleKey(groupId, DecimalString(db.nextId + 2));
            && k1 != k2
            && twice.db.articles.Keys == db.articles.Keys + {k1, k2}
  {
    var once := AddJournalArticleSpec(db, env, a, groupId, companyId);
    GeneratedIdNeverOverwrites(db, env, a, groupId, companyId);
    GeneratedIdNeverOverwrites(once.db, env, a, groupId, companyId);
    if DecimalString(db.nextId) == DecimalString(db.nextId + 2) {
      DecimalStringInjective(db.nextId, db.nextId + 2);
    }
  }

  /**
   * A generated id that is already taken is not retried: the counter value is
   * spent, so the next run of the same declaration tries a different id.
   */
  lemma GeneratedIdCollisionMovesOn(db: Db, env: Env, a: ArticleDecl, groupId: int, companyId: int)
    requires a.articleId == ""
    requires NewArticleKey(db, a, groupId) in db.articles
    ensures var once := AddJournalArticleSpec(db, env, a, groupId, companyId);
            && once == After(Normal, db.(nextId := db.nextId + 1))
            && NewArticleKey(once.db, a, groupId) != NewArticleKey(db, a, groupId)
  {
    GeneratedIdNeverOverwrites(db, env, a, groupId, companyId);
    if DecimalString(db.nextId) == DecimalString(db.nextId + 1) {
      DecimalStringInjective(db.nextId, db.nextId + 1);
    }
  }

  /** The stored article is already what a refresh with the same values would write. */
  lemma StoredArticleIsRefreshed(db: Db, env: Env, a: ArticleDecl, groupId: int, companyId: int)
    requires a.articleId != ""
    ensures var k := ArticleKey(groupId, a.articleId);
            var once := AddJournalArticleSpec(db, env, a, groupId, companyId);
            var p := Prepare(env, groupId, companyId, a);
            && k in once.db.articles
            && Refreshed(once.db.articles[k], p) == once.db.articles[k]
  {
    var k := ArticleKey(groupId, a.articleId);
    if k in db.articles {
      ExplicitIdUpdatesInPlace(db, env, a, groupId, companyId);
    } else {
      ExplicitIdCreatesWhenMissing(db, env, a, groupId, companyId);
    }
  }

  /**
   * With an explicit id the write comes first and the finish after it: the
   * write leaves under the declared key an article that a refresh with the
   * same values does not change, carrying the resource key the finish uses.
   */
  lemma ExplicitIdWriteThenFinish(db: Db, env: Env, a: ArticleDecl, groupId: int, companyId: int)
    returns (written: Db, pk: nat)
    requires a.articleId != ""
    ensures var k := ArticleKey(groupId, a.articleId);
            var p := Prepare(env, groupId, companyId, a);
            && AddJournalArticleSpec(db, env, a, groupId, companyId)
               == FinishArticle(written, env, a, groupId, companyId, pk)
            && k in written.articles
            && written.articles[k].resourcePrimKey == pk
            && Refreshed(written.articles[k], p) == written.articles[k]
            && written.permissions == db.permissions
  {
    var k := ArticleKey(groupId, a.articleId);
    var p := Prepare(env, groupId, companyId, a);
    if k in db.articles {
      written := db.PutArticle(k, Refreshed(db.articles[k], p));
      pk := db.articles[k].resourcePrimKey;
    } else {
      written := db.NewArticle(k, p.folderId, p.titleMap, p.descMap, p.content, a.structureKey, a.templateKey);
      pk := db.nextId;
    }
  }

  /** An article that already holds the prepared values is only finished again. */
  lemma ExplicitIdRerunOnlyFinishes(db: Db, env: Env, a: ArticleDecl, groupId: int, companyId: int)
    requires a.articleId != ""
    requires ArticleKey(groupId, a.articleId) in db.articles
    requires var ja := db.articles[ArticleKey(groupId, a.articleId)];
             Refreshed(ja, Prepare(env, groupId, companyId, a)) == ja
    ensures AddJournalArticleSpec(db, env, a, groupId, companyId)
         == FinishArticle(db, env, a, groupId, companyId, db.articles[ArticleKey(groupId, a.articleId)].resourcePrimKey)
  {
    var k := ArticleKey(groupId, a.articleId);
    assert db.PutArticle(k, db.articles[k]) == db;
  }

  /**
   * Finishing a second time from what the first finish left ends the same
   * way, changes no table and repeats only the first finish's permission call.
   */
  lemma FinishIdempotent(written: Db, env: Env, a: ArticleDecl, groupId: int, companyId: int, pk: nat)
    ensures var once := FinishArticle(written, env, a, groupId, companyId, pk);
            var twice := FinishArticle(once.db, env, a, groupId, companyId, pk);
            && twice.outcome == once.outcome
            && twice.db.Tables() == once.db.Tables()
            && |written.permissions| <= |once.db.permissions|
            && twice.db.permissions == once.db.permissions + once.db.permissions[|written.permissions|..]
  {
    var once := FinishArticle(written, env, a, groupId, companyId, pk);
    FinishOnlyLinksAndPermissions(written, env, a, groupId, companyId, pk);
    FinishOnlyLinksAndPermissions(once.db, env, a, groupId, companyId, pk);
    RelatedAssetsIdempotent(written, once.db, env, a.relatedAssets, pk, groupId, companyId);
  }

  /**
   * With an explicit id, running the same article again ends the same way,
   * leaves every table as the first run left it, and only repeats the
   * permission call the first run made (if it got that far).
   */
  lemma ExplicitIdIdempotent(db: Db, env: Env, a: ArticleDecl, groupId: int, companyId: int)
    requires a.articleId != ""
    ensures var once := AddJournalArticleSpec(db, env, a, groupId, companyId);
            var twice := AddJournalArticleSpec(once.db, env, a, groupId, companyId);
            && twice.outcome == once.outcome
            && twice.db.Tables() == once.db.Tables()
            && |db.permissions| <= |once.db.permissions|
            && twice.db.permissions == once.db.permissions + once.db.permissions[|db.permissions|..]
  {
    var written, pk := ExplicitIdWriteThenFinish(db, env, a, groupId, companyId);
    var once := FinishArticle(written, env, a, groupId, companyId, pk);
    assert once.db.articles == written.articles;
    ExplicitIdRerunOnlyFinishes(once.db, env, a, groupId, companyId);
    FinishIdempotent(written, env, a, groupId, companyId, pk);
  }
}

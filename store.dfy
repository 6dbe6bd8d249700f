/**
 * The portal's local services, reduced to an in-memory store. Each method is
 * one service call the setup makes and says exactly what it leaves behind.
 */
module Store {
  import opened Wrappers
  import opened JavaLang
  import opened Model

  class ContentStore {
    var structures: map<EntityKey, StructureRec>
    var templates: map<EntityKey, TemplateRec>
    var articles: map<ArticleKey, ArticleRec>
    var recordSets: map<RecordSetKey, RecordSetRec>
    var entries: map<AssetKey, nat>
    var links: set<Link>
    var permissions: seq<PermissionCall>
    var nextId: nat

    /** The store as a value. */
    function Snapshot(): Db
      reads this
    {
      Db(structures, templates, articles, recordSets, entries, links, permissions, nextId)
    }

    constructor ()
      ensures Snapshot() == EmptyDb
    {
      structures, templates, articles, recordSets := map[], map[], map[], map[];
      entries, links, permissions, nextId := map[], {}, [], 1;
    }

    /** `DDMStructureLocalServiceUtil.fetchStructure`. */
    method FetchStructure(k: EntityKey) returns (r: Option<StructureRec>)
      ensures r == Get(structures, k)
    {
      r := if k in structures then Some(structures[k]) else None;
    }

    /** `DDMStructureLocalServiceUtil.addStructure`. */
    method AddStructure(k: EntityKey, parentKey: JString, nameMap: LocaleMap, descMap: LocaleMap, form: Form)
      returns (rec: StructureRec)
      modifies this
      ensures Snapshot() == old(Snapshot()).NewStructure(k, parentKey, nameMap, descMap, form)
      ensures rec == structures[k] && rec.structureId == old(nextId)
    {
      var parentId := 0;
      if IsNonEmpty(parentKey) && EntityKey(k.groupId, k.classNameId, parentKey.value) in structures {
        parentId := structures[EntityKey(k.groupId, k.classNameId, parentKey.value)].structureId;
      }
      rec := StructureRec(nextId, parentId, nameMap, descMap, form);
      structures := structures[k := rec];
      nextId := nextId + 1;
    }

    /** `DDMStructureLocalServiceUtil.updateStructure`. */
    method UpdateStructure(k: EntityKey, rec: StructureRec)
      modifies this
      ensures Snapshot() == old(Snapshot()).PutStructure(k, rec)
    {
      structures := structures[k := rec];
    }

    /** `DDMTemplateLocalServiceUtil.fetchTemplate`. */
    method FetchTemplate(k: EntityKey) returns (r: Option<TemplateRec>)
      ensures r == Get(templates, k)
    {
      r := if k in templates then Some(templates[k]) else None;
    }

    /**
     * `DDMTemplateLocalServiceUtil.addTemplate`: refuses a key already taken in
     * the group and class (`TemplateDuplicateTemplateKeyException`).
     */
    method AddTemplate(k: EntityKey, classPK: int, resourceClassNameId: int, nameMap: LocaleMap,
                       descMap: LocaleMap, language: string, script: string, cacheable: bool)
      returns (ok: bool)
      modifies this
      ensures ok == (k !in old(templates))
      ensures Snapshot() == if ok then old(Snapshot()).NewTemplate(k, classPK, resourceClassNameId, nameMap,
                                                                    descMap, language, script, cacheable)
                            else old(Snapshot())
    {
      ok := k !in templates;
      if ok {
        templates := templates[k := TemplateRec(nextId, k.classNameId, classPK, resourceClassNameId, nameMap,
                                                descMap, language, script, cacheable)];
        nextId := nextId + 1;
      }
    }

    /** `DDMTemplateLocalServiceUtil.updateDDMTemplate`. */
    method UpdateTemplate(k: EntityKey, rec: TemplateRec)
      modifies this
      ensures Snapshot() == old(Snapshot()).PutTemplate(k, rec)
    {
      templates := templates[k := rec];
    }

    /** `JournalArticleLocalServiceUtil.fetchLatestArticle(groupId, articleId, STATUS_APPROVED)`. */
    method FetchLatestArticle(k: ArticleKey) returns (r: Option<ArticleRec>)
      ensures r == Get(articles, k)
    {
      r := if k in articles then Some(articles[k]) else None;
    }

    /**
     * `JournalArticleLocalServiceUtil.addArticle`: an explicit id, or with
     * `autoArticleId` the decimal form of a fresh counter value; refuses an id
     * already taken in the group (a `PortalException`).
     */
    method AddArticle(groupId: int, articleId: string, autoArticleId: bool, folderId: int, titleMap: LocaleMap,
                      descMap: Option<LocaleMap>, content: JString, structureKey: JString, templateKey: JString)
      returns (k: ArticleKey, ok: bool)
      modifies this
      ensures k == ArticleKey(groupId, if autoArticleId then DecimalString(old(nextId)) else articleId)
      ensures ok == (k !in old(articles))
      ensures Snapshot() == if ok then old(Snapshot()).NewArticle(k, folderId, titleMap, descMap, content,
                                                                  structureKey, templateKey)
                            else if autoArticleId then old(Snapshot()).SkipId()
                            else old(Snapshot())
    {
      k := ArticleKey(groupId, if autoArticleId then DecimalString(nextId) else articleId);
      ok := k !in articles;
      if ok {
        articles := articles[k := ArticleRec(nextId, folderId, titleMap, descMap, content, structureKey, templateKey)];
        entries := entries[AssetKey(JournalArticleClass, nextId) := nextId + 1];
        nextId := nextId + 2;
      } else if autoArticleId {
        nextId := nextId + 1;
      }
    }

    /** `JournalArticleLocalServiceUtil.updateJournalArticle`. */
    method UpdateArticle(k: ArticleKey, rec: ArticleRec)
      modifies this
      ensures Snapshot() == old(Snapshot()).PutArticle(k, rec)
    {
      articles := articles[k := rec];
    }

    /** `JournalArticleLocalServiceUtil.moveArticle`: puts a stored article into another folder. */
    method MoveArticle(k: ArticleKey, folderId: int)
      requires k in articles
      modifies this
      ensures Snapshot() == old(Snapshot()).PutArticle(k, old(articles[k]).(folderId := folderId))
    {
      articles := articles[k := articles[k].(folderId := folderId)];
    }

    /** `DDLRecordSetLocalServiceUtil.fetchRecordSet`. */
    method FetchRecordSet(k: RecordSetKey) returns (r: Option<RecordSetRec>)
      ensures r == Get(recordSets, k)
    {
      r := if k in recordSets then Some(recordSets[k]) else None;
    }

    /**
     * `DDLRecordSetLocalServiceUtil.addRecordSet`: refuses a record-set key
     * already taken in the group (a `PortalException`).
     */
    method AddRecordSet(k: RecordSetKey, structureId: int, nameMap: LocaleMap, descMap: LocaleMap)
      returns (ok: bool)
      modifies this
      ensures ok == (k !in old(recordSets))
      ensures Snapshot() == if ok then old(Snapshot()).NewRecordSet(k, structureId, nameMap, descMap)
                            else old(Snapshot())
    {
      ok := k !in recordSets;
      if ok {
        recordSets := recordSets[k := RecordSetRec(nextId, structureId, nameMap, descMap, MinDisplayRows)];
        nextId := nextId + 1;
      }
    }

    /** `DDLRecordSetLocalServiceUtil.updateDDLRecordSet`. */
    method UpdateRecordSet(k: RecordSetKey, rec: RecordSetRec)
      modifies this
      ensures Snapshot() == old(Snapshot()).PutRecordSet(k, rec)
    {
      recordSets := recordSets[k := rec];
    }

    /** `AssetEntryLocalServiceUtil.getEntry(className, classPK)`; `None`: `NoSuchEntryException`. */
    method GetEntry(k: AssetKey) returns (r: Option<nat>)
      ensures r == Get(entries, k)
    {
      r := if k in entries then Some(entries[k]) else None;
    }

    /** `AssetLinkLocalServiceUtil.deleteLinks(entryId)`. */
    method DeleteLinks(entryId: nat)
      modifies this
      ensures Snapshot() == old(Snapshot()).DeleteLinks(entryId)
    {
      links := set l | l in links && l.entryId1 != entryId && l.entryId2 != entryId;
    }

    /** `AssetLinkLocalServiceUtil.addLink(userId, entryId1, entryId2, TYPE_RELATED, 1)`. */
    method AddLink(entryId1: nat, entryId2: nat)
      modifies this
      ensures Snapshot() == old(Snapshot()).AddLink(entryId1, entryId2)
    {
      links := links + {Link(entryId1, entryId2)};
    }

    /** `SetupPermissions.updatePermission`: recorded, in call order. */
    method UpdatePermission(call: PermissionCall)
      modifies this
      ensures Snapshot() == old(Snapshot()).Grant(call)
    {
      permissions := permissions + [call];
    }
  }
}

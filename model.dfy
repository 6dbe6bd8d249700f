/**
 * The declarations the setup reads, the records the portal keeps, and the
 * collaborators the setup calls but whose bodies are not part of this model.
 */
module Model {
  import opened Wrappers
  import opened JavaLang

  /** A locale, by its language id (`en_US`). */
  type Locale = string

  /**
   * A `Map<Locale, String>` as the setup builds it: a `HashMap`, so both the
   * key and the value may be `null`.
   */
  type LocaleMap = map<Option<Locale>, JString>

  /** Role name to the ordered list of action keys granted to it. */
  type PermissionTable = map<string, seq<string>>

  /** The role permissions a declaration carries; `None` when none are declared. */
  type RolePermissions = Option<PermissionTable>

  const JournalArticleClass: string := "com.liferay.journal.model.JournalArticle"
  const JournalFolderClass: string := "com.liferay.journal.model.JournalFolder"
  const DDMStructureClass: string := "com.liferay.dynamic.data.mapping.model.DDMStructure"
  const DDLRecordSetClass: string := "com.liferay.dynamic.data.lists.model.DDLRecordSet"

  /** The permission resource name used for every structure, article or DDL alike. */
  const StructureResource: string := DDMStructureClass + "-" + JournalArticleClass

  /** `DDLRecordSet` minimum display rows passed on creation. */
  const MinDisplayRows: int := 10

  /**
   * The exceptions that decide control flow. `DuplicateTemplateKey` is a
   * subclass of `PortalException`; the others are unrelated to each other.
   */
  datatype Exc = PortalError | DuplicateTemplateKey | IOError | NullPointer

  /** `catch (PortalException e)` catches these. */
  predicate IsPortalException(e: Exc) {
    e == PortalError || e == DuplicateTemplateKey
  }

  /** How a Java call ended: normally, or by throwing. */
  datatype Outcome = Normal | Thrown(exc: Exc)

  // ---------------------------------------------------------------------------
  // Declarations (already parsed from the setup XML)
  // ---------------------------------------------------------------------------

  datatype StructureDecl = StructureDecl(
    key: string, name: JString, parent: JString, path: string, rolePermissions: RolePermissions)

  datatype ArticleTemplateDecl = ArticleTemplateDecl(
    key: string, name: JString, path: string, language: string, cacheable: bool,
    articleStructureKey: JString)

  datatype AdtDecl = AdtDecl(
    templateKey: string, name: JString, className: string, resourceClassName: JString,
    description: JString, language: string, path: string, cacheable: bool)

  datatype RelatedAssetDecl = RelatedAssetDecl(assetClass: string, assetClassPrimaryKey: string)

  datatype RelatedAssetsDecl = RelatedAssetsDecl(
    clearAllAssets: bool, relatedAsset: Option<seq<RelatedAssetDecl>>)

  datatype Translation = Translation(locale: string, text: string)

  datatype ArticleDecl = ArticleDecl(
    articleId: string, title: JString, titleTranslations: seq<Translation>,
    description: JString, descriptionTranslations: seq<Translation>, path: string,
    folderPath: JString, structureKey: JString, templateKey: JString,
    relatedAssets: Option<RelatedAssetsDecl>, rolePermissions: RolePermissions)

  datatype RecordSetDecl = RecordSetDecl(
    key: string, name: JString, description: JString, ddlStructureKey: string)

  datatype FolderDecl = FolderDecl(folderPath: string, description: JString, rolePermissions: RolePermissions)

  /** The parts of a site declaration that `setupSiteStructuresAndTemplates` reads. */
  datatype SiteDecl = SiteDecl(
    articleStructures: Option<seq<StructureDecl>>,
    ddlStructures: Option<seq<StructureDecl>>,
    articleTemplates: Option<seq<ArticleTemplateDecl>>)

  /** A parsed structure definition: its content and the locale it was authored in. */
  datatype Form = Form(definition: string, defaultLocale: Locale)

  // ---------------------------------------------------------------------------
  // Records of the portal
  // ---------------------------------------------------------------------------

  /** Structures and templates are unique per group, class name id and key. */
  datatype EntityKey = EntityKey(groupId: int, classNameId: int, key: string)

  /** Articles are looked up by group and article id. */
  datatype ArticleKey = ArticleKey(groupId: int, articleId: string)

  /** Record sets are looked up by group and record-set key. */
  datatype RecordSetKey = RecordSetKey(groupId: int, key: string)

  /** An asset entry is addressed by the class name and primary key of its asset. */
  datatype AssetKey = AssetKey(className: string, classPK: int)

  /** A directed "related" link between two asset entries. */
  datatype Link = Link(entryId1: nat, entryId2: nat)

  datatype StructureRec = StructureRec(
    structureId: nat, parentStructureId: int, nameMap: LocaleMap, descriptionMap: LocaleMap, form: Form)

  datatype TemplateRec = TemplateRec(
    templateId: nat, classNameId: int, classPK: int, resourceClassNameId: int,
    nameMap: LocaleMap, descriptionMap: LocaleMap, language: string, script: string, cacheable: bool)

  datatype ArticleRec = ArticleRec(
    resourcePrimKey: nat, folderId: int, titleMap: LocaleMap, descriptionMap: Option<LocaleMap>,
    content: JString, structureKey: JString, templateKey: JString)

  datatype RecordSetRec = RecordSetRec(
    recordSetId: nat, ddmStructureId: int, nameMap: LocaleMap, descriptionMap: LocaleMap, minDisplayRows: int)

  /** One call of `SetupPermissions.updatePermission`. */
  datatype PermissionCall = PermissionCall(
    resource: string, resourceId: int, overrides: RolePermissions, defaults: PermissionTable)

  /** Everything the portal keeps that the setup reads or writes, as one value. */
  datatype Db = Db(
    structures: map<EntityKey, StructureRec>,
    templates: map<EntityKey, TemplateRec>,
    articles: map<ArticleKey, ArticleRec>,
    recordSets: map<RecordSetKey, RecordSetRec>,
    entries: map<AssetKey, nat>,
    links: set<Link>,
    permissions: seq<PermissionCall>,
    nextId: nat)
  {
    /** The store without its permission log: what a re-run must leave as it is. */
    function Tables(): Db {
      this.(permissions := [])
    }

    /**
     * The parent id `addStructure` stores for a parent key: that structure's id
     * when the key is non-empty and names one in the same group and class, else 0.
     */
    function ParentIdOf(groupId: int, classNameId: int, parentKey: JString): int {
      if IsNonEmpty(parentKey) && EntityKey(groupId, classNameId, parentKey.value) in structures
      then structures[EntityKey(groupId, classNameId, parentKey.value)].structureId
      else 0
    }

    function NewStructure(k: EntityKey, parentKey: JString, nameMap: LocaleMap, descMap: LocaleMap, form: Form): Db {
      var rec := StructureRec(nextId, ParentIdOf(k.groupId, k.classNameId, parentKey), nameMap, descMap, form);
      this.(structures := structures[k := rec], nextId := nextId + 1)
    }

    function PutStructure(k: EntityKey, rec: StructureRec): Db {
      this.(structures := structures[k := rec])
    }

    function NewTemplate(k: EntityKey, classPK: int, resourceClassNameId: int, nameMap: LocaleMap,
                         descMap: LocaleMap, language: string, script: string, cacheable: bool): Db {
      var rec := TemplateRec(nextId, k.classNameId, classPK, resourceClassNameId, nameMap, descMap,
                             language, script, cacheable);
      this.(templates := templates[k := rec], nextId := nextId + 1)
    }

    function PutTemplate(k: EntityKey, rec: TemplateRec): Db {
      this.(templates := templates[k := rec])
    }

    /** A new article and its asset entry: two fresh ids. */
    function NewArticle(k: ArticleKey, folderId: int, titleMap: LocaleMap, descMap: Option<LocaleMap>,
                        content: JString, structureKey: JString, templateKey: JString): Db {
      var rec := ArticleRec(nextId, folderId, titleMap, descMap, content, structureKey, templateKey);
      this.(articles := articles[k := rec],
            entries := entries[AssetKey(JournalArticleClass, nextId) := nextId + 1],
            nextId := nextId + 2)
    }

    /** A counter value drawn for an article id that the add then refused. */
    function SkipId(): Db {
      this.(nextId := nextId + 1)
    }

    function PutArticle(k: ArticleKey, rec: ArticleRec): Db {
      this.(articles := articles[k := rec])
    }

    function NewRecordSet(k: RecordSetKey, structureId: int, nameMap: LocaleMap, descMap: LocaleMap): Db {
      var rec := RecordSetRec(nextId, structureId, nameMap, descMap, MinDisplayRows);
      this.(recordSets := recordSets[k := rec], nextId := nextId + 1)
    }

    function PutRecordSet(k: RecordSetKey, rec: RecordSetRec): Db {
      this.(recordSets := recordSets[k := rec])
    }

    /** `deleteLinks(entryId)`: drops every link with that entry at either end. */
    function DeleteLinks(entryId: nat): Db {
      this.(links := set l | l in links && l.entryId1 != entryId && l.entryId2 != entryId)
    }

    function AddLink(entryId1: nat, entryId2: nat): Db {
      this.(links := links + {Link(entryId1, entryId2)})
    }

    function Grant(call: PermissionCall): Db {
      this.(permissions := permissions + [call])
    }
  }

  /** The empty portal. */
  const EmptyDb: Db := Db(map[], map[], map[], map[], map[], {}, [], 1)

  // ---------------------------------------------------------------------------
  // Collaborators
  // ---------------------------------------------------------------------------

  /**
   * The calls into code that is not part of this model, as functions of their
   * arguments. `None` stands for the exception or the `null` named beside each.
   */
  datatype Env = Env(
    /** `PortalUtil.getSiteDefaultLocale(groupId)`; `None`: it threw `PortalException`. */
    siteDefaultLocale: int -> Option<Locale>,
    /** `ClassNameLocalServiceUtil.getClassNameId` / `PortalUtil.getClassNameId`. */
    classNameId: string -> int,
    /** `ResourcesUtil.getFileContent(path)`; `None`: it threw. */
    fileContent: string -> Option<string>,
    /** `DDMUtil.getDDMForm(content)`; `None`: `null` or a parse exception. */
    parseForm: string -> Option<Form>,
    /** `ResolverUtil.getStructureId(key, groupId, class, false)`; `None`: it threw `PortalException`. */
    structureId: (string, int, string) -> Option<int>,
    /** `ResolverUtil.lookupAll(groupId, companyId, text, hint)`: placeholder resolution. */
    lookupAll: (int, int, string) -> string,
    /** `WebFolderUtil.findWebFolder(..., groupId, ..., path, description, true)`; `None`: `null`. */
    findWebFolder: (int, string, JString) -> Option<int>,
    /** `TranslationMapUtil.getTranslationMap(translations, groupId, defaultValue, hint)`. */
    translationMap: (seq<Translation>, int, JString) -> LocaleMap,
    /** `LocaleUtil.fromLanguageId(LocalizationUtil.getDefaultLanguageId(content))`. */
    contentDefaultLocale: JString -> Locale)

  /** The thread-local run context: company, acting user and group. */
  datatype Ctx = Ctx(companyId: int, userId: int, groupId: int)

  /** An outcome together with the store it left behind. */
  datatype After = After(outcome: Outcome, db: Db)
}

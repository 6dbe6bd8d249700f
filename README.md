# Liferay portal setup: web content upserts

A model of the web-content part of the ableneo Liferay portal setup:
`SetupArticles` and `SetupWebFolders`. The setup reads declared
artifacts (DDM structures, article templates, application display
templates (ADTs), journal articles with their related assets, DDL record
sets and web folders) and makes the portal hold them: each declaration is
looked up by its key and either overwritten in place or created
("upsert"), and its permissions are then applied from a default
role→actions table unless the declaration overrides a role.

The portal's services are one in-memory store, `Store.ContentStore`: a
class whose fields are maps for structures and templates (keyed by group,
class name id and key), articles (group, article id), record sets (group,
key), asset entries, a set of directed related-asset links, the log of
permission applications and an id counter. Every store read or write the
setup makes is a method of that class, whose contract ties the new state
(`Snapshot()`, a `Model.Db` value) to a pure operation on the old one.

Each upsert and driver is written twice: once as the method that does what
the Java code does, step by step, against the store, and once as a pure
function `...Spec` of the store value. Each method is proved to end in
exactly the state and outcome its function describes; the properties
(idempotence, which fields change, what an error leaves behind) are
lemmas about the functions.

- `null` is `Option`, and a thrown exception is an `Outcome`:
  `PortalError` (any `PortalException` other than a duplicate template
  key), `DuplicateTemplateKey`, `IOError` and `NullPointer`.
- The collaborators the setup calls but does not define are function
  fields of `Model.Env`: site default locale, class name ids, file
  contents, DDM form parsing, structure-id resolution, placeholder
  resolution (`lookupAll`), web folder lookup, translation maps and the
  content's default locale.
- The thread-local run context (company, user, group) is `Model.Ctx`, or
  explicit parameters.

Modules: `Wrappers`, `JavaLang` (blank/empty tests, `Long.parseLong`),
`Model` (declarations, records, store value, collaborators), `Store`,
`Permissions`, `StructureUpsert`, `TemplateUpsert`,
`RecordSetUpsert`, `RelatedAssets`, `ArticleUpsert`, `DriverLoop`
(the shared per-item loop), `SetupArticles` (the two drivers) and
`SetupWebFolders`.

Behaviour kept as the code has it, and stated by lemmas:

- `getStructureNameOrKey` returns the key when a name is declared and
  `null` when none is.
- The DDL-structure block of `setupSiteStructuresAndTemplates` tests the
  article-structure list (line 131). Without article structures the DDL
  structures are skipped. With article structures but no DDL list, the
  driver throws `NullPointerException`.
- `addDDLRecordSet` looks a record set up by its own key but creates it
  under its DDL structure's key. When the two differ, a second run collides
  with the record set the first run made.
- A new ADT is always created cacheable, and an update copies the declared
  flag. A non-cacheable ADT therefore settles only on the second run.
- Without clear-all, `processRelatedAssets` never fetches the article's
  asset entry. The first target that has an entry then dereferences
  `null` (line 548).
- A structure declared as its own parent is re-parented to itself by the
  second run.
- An article with an empty id gets a new generated id on every run.

## Model

| member | source | states |
|---|---|---|
| JavaLang.ParseLong | src/main/java/com/ableneo/liferay/portal/setup/core/SetupArticles.java:538-543 | `Long.parseLong`: a string it accepts is an optional sign and then digits only, at least one; its value is in the 64-bit range and, unless zero, is negative exactly when the string starts with `-` |
| JavaLang.IsBlank | src/main/java/com/ableneo/liferay/portal/setup/core/SetupArticles.java:338-340 | `Validator.isBlank`: a string that is not blank is non-null and non-empty; one starting with a non-whitespace character is not blank |
| JavaLang.DecimalString | src/main/java/com/ableneo/liferay/portal/setup/core/SetupArticles.java:443-448 | the decimal form of a generated id is a non-empty string of digits with no leading zero, one digit long exactly below 10 |
| JavaLang.DecimalStringValue | src/main/java/com/ableneo/liferay/portal/setup/core/SetupArticles.java:444-445 | the decimal form of a generated id consists of digits only and denotes that id |
| JavaLang.ParseDecimalString | src/main/java/com/ableneo/liferay/portal/setup/core/SetupArticles.java:444-445 | parsing the decimal form of an id in range gives back that id |
| JavaLang.ParseSignedDecimalString | src/main/java/com/ableneo/liferay/portal/setup/core/SetupArticles.java:538-543 | a `-` or `+` in front of a decimal form parses to the negated or the same number, down to `Long.MIN_VALUE` and up to `Long.MAX_VALUE` |
| JavaLang.ParseOutOfRange | src/main/java/com/ableneo/liferay/portal/setup/core/SetupArticles.java:538-543 | a number beyond the 64-bit range, written out with or without `-`, does not parse |
| JavaLang.DecimalStringInjective | src/main/java/com/ableneo/liferay/portal/setup/core/SetupArticles.java:444-445 | distinct counter values give distinct generated article ids |
| Permissions.InitArticleTables | src/main/java/com/ableneo/liferay/portal/setup/core/SetupArticles.java:80-113 | the static initializer builds exactly the article table (owner: eight actions in order, user and guest: VIEW) and the structure table (owner: VIEW, DELETE, UPDATE, PERMISSIONS) |
| Permissions.InitFolderTable | src/main/java/com/ableneo/liferay/portal/setup/core/SetupWebFolders.java:46-67 | the folder table has exactly the roles owner, user and guest; the owner's eight actions run from VIEW to ACCESS in order; user and guest get only VIEW |
| Permissions.GetDefaultPermissions | src/main/java/com/ableneo/liferay/portal/setup/core/SetupWebFolders.java:74-76 | returns the folder table itself, owner actions in order, VIEW only for the others |
| Store.ContentStore.FetchStructure | src/main/java/com/ableneo/liferay/portal/setup/core/SetupArticles.java:223-224 | returns the structure under the key, or `null` |
| Store.ContentStore.AddStructure | src/main/java/com/ableneo/liferay/portal/setup/core/SetupArticles.java:254-256 | creates a structure with a fresh id, parent resolved by key, and returns it |
| Store.ContentStore.UpdateStructure | src/main/java/com/ableneo/liferay/portal/setup/core/SetupArticles.java:241-243 | overwrites the structure under the key; nothing else changes |
| Store.ContentStore.FetchTemplate | src/main/java/com/ableneo/liferay/portal/setup/core/SetupArticles.java:307-312 | returns the template under the key, or `null` |
| Store.ContentStore.AddTemplate | src/main/java/com/ableneo/liferay/portal/setup/core/SetupArticles.java:328-330 | creates a template with a fresh id unless the key is taken (duplicate key) |
| Store.ContentStore.UpdateTemplate | src/main/java/com/ableneo/liferay/portal/setup/core/SetupArticles.java:322 | overwrites the template under the key |
| Store.ContentStore.FetchLatestArticle | src/main/java/com/ableneo/liferay/portal/setup/core/SetupArticles.java:434-436 | returns the article under group and id, or `null` |
| Store.ContentStore.AddArticle | src/main/java/com/ableneo/liferay/portal/setup/core/SetupArticles.java:443-448 | adds an article and its asset entry under the explicit id or the decimal form of a fresh counter value; refuses a taken id, and a refused generated id still spends its counter value |
| Store.ContentStore.UpdateArticle | src/main/java/com/ableneo/liferay/portal/setup/core/SetupArticles.java:459-463 | overwrites the article under the key |
| Store.ContentStore.MoveArticle | src/main/java/com/ableneo/liferay/portal/setup/core/SetupArticles.java:466-468 | changes only the folder of the stored article |
| Store.ContentStore.FetchRecordSet | src/main/java/com/ableneo/liferay/portal/setup/core/SetupArticles.java:490-495 | returns the record set under group and key, or `null` |
| Store.ContentStore.AddRecordSet | src/main/java/com/ableneo/liferay/portal/setup/core/SetupArticles.java:509-511 | creates a record set with a fresh id and ten display rows unless the key is taken |
| Store.ContentStore.UpdateRecordSet | src/main/java/com/ableneo/liferay/portal/setup/core/SetupArticles.java:503 | overwrites the record set under the key |
| Store.ContentStore.GetEntry | src/main/java/com/ableneo/liferay/portal/setup/core/SetupArticles.java:523 | returns the asset entry of a class and primary key, or fails |
| Store.ContentStore.DeleteLinks | src/main/java/com/ableneo/liferay/portal/setup/core/SetupArticles.java:524 | removes every link with the entry at either end, and only those |
| Store.ContentStore.AddLink | src/main/java/com/ableneo/liferay/portal/setup/core/SetupArticles.java:548-549 | adds one directed related link |
| Store.ContentStore.UpdatePermission | src/main/java/com/ableneo/liferay/portal/setup/core/SetupArticles.java:246-249 | appends one permission application to the log |
| StructureUpsert.StructureNameOrKey | src/main/java/com/ableneo/liferay/portal/setup/core/SetupArticles.java:264-269 | as written: `null` exactly when no name is declared, else the key, so a declared name different from the key is never used |
| StructureUpsert.StructureNameMap | src/main/java/com/ableneo/liferay/portal/setup/core/SetupArticles.java:183-221 | the name map has exactly the site default locale and the form's default locale as keys, both mapped to the chosen name |
| StructureUpsert.AddDDMStructureSpec | src/main/java/com/ableneo/liferay/portal/setup/core/SetupArticles.java:179-262 | the structure upsert never removes an entry from the permission log |
| StructureUpsert.SaveStructure | src/main/java/com/ableneo/liferay/portal/setup/core/SetupArticles.java:223-260 | saving never removes an entry from the permission log |
| StructureUpsert.AddDDMStructure | src/main/java/com/ableneo/liferay/portal/setup/core/SetupArticles.java:179-262 | the method ends in exactly the store `AddDDMStructureSpec` describes |
| StructureUpsert.ReadOrParseFailureLeavesStore | src/main/java/com/ableneo/liferay/portal/setup/core/SetupArticles.java:194-216 | an unreadable or unparsable structure file leaves the store as it was |
| StructureUpsert.StoredNameMap | src/main/java/com/ableneo/liferay/portal/setup/core/SetupArticles.java:183-221 | after a successful read the stored name map holds the site and form locales, both mapped to the chosen name; the description map is empty |
| StructureUpsert.UpdateKeepsIdAndParentRule | src/main/java/com/ableneo/liferay/portal/setup/core/SetupArticles.java:228-249 | an update keeps the structure id; the parent changes only to a declared, non-empty parent that is found; no other structure changes; no other table changes; one permission call on the id |
| StructureUpsert.CreateUnderDeclaredKey | src/main/java/com/ableneo/liferay/portal/setup/core/SetupArticles.java:254-260 | a missing structure is created under the declared key with a fresh id and its parent resolved by key; no other structure and no other table changes except the id counter; one permission call on the new id |
| StructureUpsert.AddDDMStructureIdempotent | src/main/java/com/ableneo/liferay/portal/setup/core/SetupArticles.java:179-262 | unless a structure is its own parent, a second run changes no table and only repeats the first run's permission call |
| StructureUpsert.SaveStructureIdempotent | src/main/java/com/ableneo/liferay/portal/setup/core/SetupArticles.java:223-260 | the fetch-then-save part run twice leaves the tables as once did |
| StructureUpsert.SavedRecord | src/main/java/com/ableneo/liferay/portal/setup/core/SetupArticles.java:223-260 | what one save leaves under the key, on both the update and the create path |
| StructureUpsert.ParentUnaffected | src/main/java/com/ableneo/liferay/portal/setup/core/SetupArticles.java:230-238 | the first run does not change how the declared parent is resolved |
| StructureUpsert.SelfParentNotIdempotent | src/main/java/com/ableneo/liferay/portal/setup/core/SetupArticles.java:230-256 | a structure declared as its own parent is stored with parent 0 first and re-parented to itself by the second run |
| TemplateUpsert.TemplateName | src/main/java/com/ableneo/liferay/portal/setup/core/SetupArticles.java:279-282 | the template name is the declared name, or the key when none is declared |
| TemplateUpsert.ArticleTemplateClassPK | src/main/java/com/ableneo/liferay/portal/setup/core/SetupArticles.java:294-305 | classPK is 0 without a structure key and the resolved structure id with one; failure when resolution throws |
| TemplateUpsert.AddArticleTemplateSpec | src/main/java/com/ableneo/liferay/portal/setup/core/SetupArticles.java:271-332 | the article template upsert does not touch the permission log |
| TemplateUpsert.AddArticleTemplate | src/main/java/com/ableneo/liferay/portal/setup/core/SetupArticles.java:271-332 | the method ends in exactly the outcome and store `AddArticleTemplateSpec` describes |
| TemplateUpsert.AdtResourceClassNameId | src/main/java/com/ableneo/liferay/portal/setup/core/SetupArticles.java:338-340 | the ADT resource class defaults to JournalArticle when the declared one is blank |
| TemplateUpsert.AddAdtSpec | src/main/java/com/ableneo/liferay/portal/setup/core/SetupArticles.java:334-383 | the ADT upsert does not touch the permission log |
| TemplateUpsert.AddAdt | src/main/java/com/ableneo/liferay/portal/setup/core/SetupArticles.java:334-383 | the method ends in exactly the outcome and store `AddAdtSpec` describes |
| TemplateUpsert.ArticleTemplateFailureLeavesStore | src/main/java/com/ableneo/liferay/portal/setup/core/SetupArticles.java:286-305 | an unreadable script or an unresolvable structure key ends the call normally with no template fetched, created or updated |
| TemplateUpsert.ArticleTemplateUpdateFields | src/main/java/com/ableneo/liferay/portal/setup/core/SetupArticles.java:314-324 | an existing template gets exactly name map, language, script, classPK and cacheable overwritten; everything else stays |
| TemplateUpsert.ArticleTemplateCreate | src/main/java/com/ableneo/liferay/portal/setup/core/SetupArticles.java:327-330 | a missing template is created under the declared key with a fresh id, the DDMStructure class, the JournalArticle resource class, the site-locale name map, the declared language, cacheable flag and script, and an empty description map; every other template and table stays |
| TemplateUpsert.ArticleTemplateThrowsOnlyForLocale | src/main/java/com/ableneo/liferay/portal/setup/core/SetupArticles.java:271-332 | the only exception is a missing site locale; the duplicate-key exception the driver catches cannot arise |
| TemplateUpsert.ArticleTemplateFixedPoint | src/main/java/com/ableneo/liferay/portal/setup/core/SetupArticles.java:314-324 | a template already holding the declared values is left as it is |
| TemplateUpsert.ArticleTemplateIdempotent | src/main/java/com/ableneo/liferay/portal/setup/core/SetupArticles.java:271-332 | running the article template upsert twice leaves what running it once left |
| TemplateUpsert.AdtUpdateCopiesCacheable | src/main/java/com/ableneo/liferay/portal/setup/core/SetupArticles.java:363-374 | an ADT update takes language, names, description, class, cacheable and script from the declaration; classPK and resource class stay |
| TemplateUpsert.AdtCreateIsCacheable | src/main/java/com/ableneo/liferay/portal/setup/core/SetupArticles.java:377-381 | a new ADT is always cacheable, has classPK 0 and the defaulted resource class |
| TemplateUpsert.AdtReadFailure | src/main/java/com/ableneo/liferay/portal/setup/core/SetupArticles.java:361 | an unreadable ADT script throws `IOException` and leaves the store as it was |
| TemplateUpsert.AdtFixedPoint | src/main/java/com/ableneo/liferay/portal/setup/core/SetupArticles.java:363-374 | an ADT already holding the declared values is left as it is |
| TemplateUpsert.AdtSaved | src/main/java/com/ableneo/liferay/portal/setup/core/SetupArticles.java:354-381 | what one successful ADT run leaves under its key |
| TemplateUpsert.AdtStableAfterSecondRun | src/main/java/com/ableneo/liferay/portal/setup/core/SetupArticles.java:334-383 | a third ADT run leaves what the second left |
| TemplateUpsert.AdtCacheableIdempotent | src/main/java/com/ableneo/liferay/portal/setup/core/SetupArticles.java:334-383 | a cacheable ADT is stable after its first run |
| TemplateUpsert.AdtNotCacheableNeedsTwoRuns | src/main/java/com/ableneo/liferay/portal/setup/core/SetupArticles.java:369-381 | a new ADT declared not cacheable is created cacheable and only turned off by the second run |
| RecordSetUpsert.AddDDLRecordSetSpec | src/main/java/com/ableneo/liferay/portal/setup/core/SetupArticles.java:483-513 | the record-set upsert does not touch the permission log |
| RecordSetUpsert.AddDDLRecordSet | src/main/java/com/ableneo/liferay/portal/setup/core/SetupArticles.java:483-513 | the method ends in exactly the outcome and store `AddDDLRecordSetSpec` describes |
| RecordSetUpsert.UpdateRebindsStructure | src/main/java/com/ableneo/liferay/portal/setup/core/SetupArticles.java:497-505 | an existing record set is re-bound to the structure id resolved on this run and takes the declared name and description; its id stays |
| RecordSetUpsert.UnresolvedStructureThrows | src/main/java/com/ableneo/liferay/portal/setup/core/SetupArticles.java:501-511 | a structure key that does not resolve throws and leaves the store as it was |
| RecordSetUpsert.CreateUnderStructureKey | src/main/java/com/ableneo/liferay/portal/setup/core/SetupArticles.java:508-511 | a record set not found is created under its DDL structure's key with the resolved structure id, a fresh id, ten display rows and the site-locale name and description maps; every other record set and table stays |
| RecordSetUpsert.RerunCollidesWhenKeysDiffer | src/main/java/com/ableneo/liferay/portal/setup/core/SetupArticles.java:492-511 | when record-set key and structure key differ, the second run does not find the first run's record set and its add throws |
| RecordSetUpsert.RecordSetFixedPoint | src/main/java/com/ableneo/liferay/portal/setup/core/SetupArticles.java:497-505 | a record set already holding the declared values is left as it is |
| RecordSetUpsert.IdempotentWhenKeysAgree | src/main/java/com/ableneo/liferay/portal/setup/core/SetupArticles.java:483-513 | when the two keys agree, a second run leaves what the first left |
| RelatedAssets.TargetPrimaryKey | src/main/java/com/ableneo/liferay/portal/setup/core/SetupArticles.java:536-543 | the resolved primary key parsed as a `long`, or 0 when it does not parse |
| RelatedAssets.LinkTargets | src/main/java/com/ableneo/liferay/portal/setup/core/SetupArticles.java:529-555 | the target loop changes only the links and only adds them, each from the fetched primary entry; it throws `NullPointerException` only when no primary entry was fetched |
| RelatedAssets.ProcessRelatedAssetsSpec | src/main/java/com/ableneo/liferay/portal/setup/core/SetupArticles.java:515-559 | processing changes only the links and throws nothing but `NullPointerException`; without clear-all no link changes, and with it a run that ends normally only adds links that start at the article's own entry |
| RelatedAssets.ProcessRelatedAssets | src/main/java/com/ableneo/liferay/portal/setup/core/SetupArticles.java:515-559 | the method ends in exactly the outcome and store `ProcessRelatedAssetsSpec` describes |
| RelatedAssets.LinkTargetsFromEntry | src/main/java/com/ableneo/liferay/portal/setup/core/SetupArticles.java:529-555 | from a fetched entry the loop adds exactly one link per target that has an entry, keeps every other link and ends normally; a failing target does not stop later ones |
| RelatedAssets.LinkTargetsWithoutEntry | src/main/java/com/ableneo/liferay/portal/setup/core/SetupArticles.java:545-553 | without a fetched entry the loop throws `NullPointerException` exactly when some target has an entry, and adds no link |
| RelatedAssets.ProcessRelatedAssetsReference | src/main/java/com/ableneo/liferay/portal/setup/core/SetupArticles.java:515-559 | processing changes only the links; its outcome and links equal the reference definitions (clear-all deletes the entry's links, then links to every found target) |
| RelatedAssets.NothingWithoutDeclaration | src/main/java/com/ableneo/liferay/portal/setup/core/SetupArticles.java:517 | no related-asset declaration: nothing happens |
| RelatedAssets.NoClearAllDereferencesNull | src/main/java/com/ableneo/liferay/portal/setup/core/SetupArticles.java:519-553 | without clear-all no link changes, and the call throws `NullPointerException` exactly when some target has an entry |
| RelatedAssets.RelatedLinksIdempotent | src/main/java/com/ableneo/liferay/portal/setup/core/SetupArticles.java:520-555 | applying the resulting links again changes nothing |
| RelatedAssets.RelatedAssetsIdempotent | src/main/java/com/ableneo/liferay/portal/setup/core/SetupArticles.java:515-559 | processing the same declaration again, on what the first processing left, ends the same way and changes nothing |
| ArticleUpsert.ArticleFolderId | src/main/java/com/ableneo/liferay/portal/setup/core/SetupArticles.java:389-401 | the folder id is 0 unless a non-empty folder path resolves, and then that folder's id |
| ArticleUpsert.ArticleContent | src/main/java/com/ableneo/liferay/portal/setup/core/SetupArticles.java:402-407 | the content is the file with its placeholders resolved, or `null` exactly when the file cannot be read |
| ArticleUpsert.CompleteLocaleMap | src/main/java/com/ableneo/liferay/portal/setup/core/SetupArticles.java:410-424 | the completed map gains the content's default locale; existing entries, including one for that locale, are kept; a missing one gets the fallback text |
| ArticleUpsert.Prepare | src/main/java/com/ableneo/liferay/portal/setup/core/SetupArticles.java:388-424 | the title map always covers the content's default locale; the description map is `null` exactly when the description is `null` or empty, and otherwise covers that locale |
| ArticleUpsert.PrepareArticle | src/main/java/com/ableneo/liferay/portal/setup/core/SetupArticles.java:388-424 | the method computes exactly the folder, content and maps `Prepare` describes |
| ArticleUpsert.AddJournalArticle | src/main/java/com/ableneo/liferay/portal/setup/core/SetupArticles.java:385-481 | the method ends in exactly the outcome and store `AddJournalArticleSpec` describes |
| ArticleUpsert.AddJournalArticleSpec | src/main/java/com/ableneo/liferay/portal/setup/core/SetupArticles.java:385-481 | an article upsert throws nothing but the related-asset `NullPointerException` (a refused add is caught); it keeps structures, templates and record sets, removes no article, only appends to the permission log and never moves the id counter back |
| ArticleUpsert.FinishArticle | src/main/java/com/ableneo/liferay/portal/setup/core/SetupArticles.java:472-476 | after the write only links and the permission log change, the log only grows, and the only exception is the related-asset `NullPointerException` |
| ArticleUpsert.FinishOnlyLinksAndPermissions | src/main/java/com/ableneo/liferay/portal/setup/core/SetupArticles.java:472-476 | after the write only links and the permission log change; the article's permissions are applied exactly when related assets end normally |
| ArticleUpsert.ExplicitIdUpdatesInPlace | src/main/java/com/ableneo/liferay/portal/setup/core/SetupArticles.java:430-469 | an explicit id that exists is overwritten in place: same keys and resource key, the new title, content and description, and the resolved folder; every other article, the asset entries and the id counter stay |
| ArticleUpsert.ExplicitIdCreatesWhenMissing | src/main/java/com/ableneo/liferay/portal/setup/core/SetupArticles.java:443-448 | an explicit id not in use is added under exactly that id with fresh resource key and asset entry |
| ArticleUpsert.GeneratedIdNeverOverwrites | src/main/java/com/ableneo/liferay/portal/setup/core/SetupArticles.java:430-448 | an empty id is never looked up: stored articles stay, and at most one article under the generated id is added; a generated id that is taken adds nothing and spends one counter value |
| ArticleUpsert.GeneratedIdRunsTwiceAddsTwo | src/main/java/com/ableneo/liferay/portal/setup/core/SetupArticles.java:430-448 | two runs of an article with an empty id add two distinct articles |
| ArticleUpsert.GeneratedIdCollisionMovesOn | src/main/java/com/ableneo/liferay/portal/setup/core/SetupArticles.java:430-448 | after a generated id collides, the next run of the same declaration tries a different id |
| ArticleUpsert.StoredArticleIsRefreshed | src/main/java/com/ableneo/liferay/portal/setup/core/SetupArticles.java:441-469 | with an explicit id, the article the run leaves already holds the prepared values |
| ArticleUpsert.ExplicitIdWriteThenFinish | src/main/java/com/ableneo/liferay/portal/setup/core/SetupArticles.java:441-476 | with an explicit id the upsert is a write followed by the finish, and the written article is unchanged by a refresh with the same values |
| ArticleUpsert.ExplicitIdRerunOnlyFinishes | src/main/java/com/ableneo/liferay/portal/setup/core/SetupArticles.java:434-469 | an article that already holds the prepared values is only finished again, with its own resource key |
| ArticleUpsert.FinishIdempotent | src/main/java/com/ableneo/liferay/portal/setup/core/SetupArticles.java:472-476 | a second finish from what the first left ends the same way, changes no table and repeats only the first finish's permission call |
| ArticleUpsert.ExplicitIdIdempotent | src/main/java/com/ableneo/liferay/portal/setup/core/SetupArticles.java:385-481 | with an explicit id a second run ends the same way, changes no table and only repeats the permission call |
| DriverLoop.RunEach | src/main/java/com/ableneo/liferay/portal/setup/core/SetupArticles.java:151-177 | a driver loop over no items changes nothing, and an exception it ends with is never one the loop catches |
| DriverLoop.RunEachThrowsOnly | src/main/java/com/ableneo/liferay/portal/setup/core/SetupArticles.java:158-176 | an exception leaves a driver loop only if some item can raise it and the loop does not catch it |
| DriverLoop.RunEachKeeps | src/main/java/com/ableneo/liferay/portal/setup/core/SetupArticles.java:151-177 | what no item changes, the whole loop does not change |
| DriverLoop.RunEachAppend | src/main/java/com/ableneo/liferay/portal/setup/core/SetupArticles.java:119-177 | running two item lists one after the other is running their concatenation, unless the first ends with an exception |
| SetupArticles.AddStructures | src/main/java/com/ableneo/liferay/portal/setup/core/SetupArticles.java:123-137 | the structure loop ends in exactly the store that running each structure upsert in order gives |
| SetupArticles.SetupSiteStructuresAndTemplates | src/main/java/com/ableneo/liferay/portal/setup/core/SetupArticles.java:119-149 | the method ends in exactly the outcome and store `SetupSiteStructuresAndTemplatesSpec` describes |
| SetupArticles.SetupSiteStructuresAndTemplatesSpec | src/main/java/com/ableneo/liferay/portal/setup/core/SetupArticles.java:119-149 | the driver never lets a duplicate template key out: it ends only with a site locale failure or with `NullPointerException`, and with the latter exactly when article structures are declared and DDL structures are not |
| SetupArticles.SetupSiteArticles | src/main/java/com/ableneo/liferay/portal/setup/core/SetupArticles.java:151-177 | the method ends in exactly the outcome and store `SetupSiteArticlesSpec` describes |
| SetupArticles.SetupSiteArticlesSpec | src/main/java/com/ableneo/liferay/portal/setup/core/SetupArticles.java:151-177 | `setupSiteArticles` ends only with `NullPointerException` or a `PortalException`, and with `NullPointerException` only when articles are declared; ADT read failures and duplicate template keys are logged |
| SetupArticles.TemplatesKeepOtherTables | src/main/java/com/ableneo/liferay/portal/setup/core/SetupArticles.java:139-148 | the template loop changes only templates and the id counter |
| SetupArticles.DdlSkippedWithoutArticleStructures | src/main/java/com/ableneo/liferay/portal/setup/core/SetupArticles.java:120-137 | without article structures no structure is added, not even a declared DDL one, and no `NullPointerException` arises |
| SetupArticles.MissingDdlListThrows | src/main/java/com/ableneo/liferay/portal/setup/core/SetupArticles.java:122-137 | with article structures but no DDL list, the article structures are added, then `NullPointerException`; no template is processed |
| SetupArticles.ArticlesThrowOnly | src/main/java/com/ableneo/liferay/portal/setup/core/SetupArticles.java:155-158 | the article loop can only end with the related-asset `NullPointerException` |
| SetupArticles.AdtsThrowOnly | src/main/java/com/ableneo/liferay/portal/setup/core/SetupArticles.java:160-167 | the ADT loop catches duplicates and read failures; only a site locale failure gets out |
| SetupArticles.RecordSetsThrowOnly | src/main/java/com/ableneo/liferay/portal/setup/core/SetupArticles.java:169-176 | the record-set loop lets every `PortalException` out |
| SetupArticles.ArticleFailureStopsDriver | src/main/java/com/ableneo/liferay/portal/setup/core/SetupArticles.java:155-176 | an article that throws stops the driver: no ADT and no record set is processed |
| SetupWebFolders.SetupWebFolders | src/main/java/com/ableneo/liferay/portal/setup/core/SetupWebFolders.java:78-88 | the method ends in exactly the outcome and store `SetupWebFoldersSpec` describes |
| SetupWebFolders.SetupWebFoldersSpec | src/main/java/com/ableneo/liferay/portal/setup/core/SetupWebFolders.java:78-88 | `setupWebFolders` leaves every table as it was and appends one permission call per folder of the found prefix; it ends normally exactly when every folder is found, else with `NullPointerException` |
| SetupWebFolders.FolderCallsShape | src/main/java/com/ableneo/liferay/portal/setup/core/SetupWebFolders.java:79-86 | the permission calls go, in order, to the longest prefix of folders that are all found, each with its own id, overrides and the folder table |
| SetupWebFolders.FolderRunReference | src/main/java/com/ableneo/liferay/portal/setup/core/SetupWebFolders.java:78-88 | the folder loop only appends the calls of the found prefix; it ends normally exactly when every folder is found, else with `NullPointerException` at the first that is not |
| SetupWebFolders.AllFoundGrantsEach | src/main/java/com/ableneo/liferay/portal/setup/core/SetupWebFolders.java:78-88 | when every folder is found, each gets exactly one permission application, in list order |

## Left out

- Liferay's services are the store above. Versions, workflow status and
  display dates of articles are not modelled, nor are the constant
  arguments of `addArticle` (the 2008 display date and the flags), search
  reindexing, logging or `ServiceContext`. A refused add (duplicate key)
  is the only store failure modelled.
- `SetupPermissions.updatePermission` is not part of this model: each call
  is recorded in the store's permission log with its resource, id, role
  overrides and default table.
- `TaggingUtil.associateTagsAndCategories` is not part of this model; it
  runs between the article write and the related assets.
- `WebFolderUtil.findWebFolder` is a collaborator. The folders it creates
  are not recorded in the store. The company and user it takes are not
  modelled.
- `ResolverUtil`, `TranslationMapUtil`, `ResourcesUtil.getFileContent`,
  `DDMUtil.getDDMForm`, `LocalizationUtil` and the site default locale
  are collaborators. A form layout is not stored. A file read and a JSON
  parse failure are one case each.
- The acting user (`runAsUserId`) is not modelled; it changes nothing the
  setup reads back.
- Related-asset links are a set: adding a link that exists changes nothing.
  The link type and weight are constants and are not stored.
- The structure parent lookup on update uses `fetchStructure` with
  ancestor structures included. The model looks the parent up by key in
  the same group and class only.
- `updateStructure` takes the structure id; the model writes the record
  back under its key, which holds that id.
- JavaLang.ParseLong: accepts only ASCII digits, whereas `Long.parseLong`
  also accepts other Unicode decimal digits. Its contract states which
  strings can be accepted and the sign of the value; that a well-formed
  string in range is accepted with its value is stated only for decimal
  forms without leading zeros (`ParseDecimalString`,
  `ParseSignedDecimalString`).
- JavaLang.IsBlank: whitespace is exactly space, `\t`, `\n`, `\r`, U+000B and
  U+000C; the separators U+001C to U+001F, which Java also counts as
  whitespace, are not, and neither are Unicode space characters.
- A `null` folder list in the site declaration is not modelled; the list
  is a sequence.
- A `null` declared article id is not modelled: the article id is a
  string, so the `NullPointerException` that `getArticleId().isEmpty()`
  would throw before any write of `setupSiteArticles` cannot arise.
- A parsed form whose default locale is `null` is not modelled: the
  locale comparison in `addDDMStructure` cannot throw.
- `SystemException`s that the fetches catch are not modelled; a fetch
  either finds a record or returns `null`.

/** `SetupArticles.processRelatedAssets`. */
module RelatedAssets {
  import opened Wrappers
  import opened JavaLang
  import opened Model
  import opened Store

  /**
   * The primary key a related-asset target is looked up by: its declared key
   * after placeholder resolution, parsed as a `long`; 0 when it does not parse.
   */
  function TargetPrimaryKey(env: Env, groupId: int, companyId: int, r: RelatedAssetDecl): (id: int)
    ensures var resolved := env.lookupAll(groupId, companyId, r.assetClassPrimaryKey);
            && (ParseLong(resolved).None? ==> id == 0)
            && (ParseLong(resolved).Some? ==> id == ParseLong(resolved).value)
            && LongMin <= id <= LongMax
  {
    match ParseLong(env.lookupAll(groupId, companyId, r.assetClassPrimaryKey))
    case None => 0
    case Some(v) => v
  }

  /** The asset entry of a target, if the store has one (`getEntry` throws otherwise). */
  function TargetEntry(entries: map<AssetKey, nat>, env: Env, groupId: int, companyId: int, r: RelatedAssetDecl): Option<nat> {
    Get(entries, AssetKey(r.assetClass, TargetPrimaryKey(env, groupId, companyId, r)))
  }

  /**
   * The loop over the declared targets, from the primary entry `ae` (`null`
   * when it was not fetched): a target without an entry is logged and
   * skipped; one with an entry is linked, or dereferences the `null` primary.
   */
  function LinkTargets(db: Db, env: Env, groupId: int, companyId: int, ae: Option<nat>, targets: seq<RelatedAssetDecl>)
    : (r: After)
    ensures r.db == db.(links := r.db.links)
    ensures db.links <= r.db.links
    ensures forall l :: l in r.db.links && l !in db.links ==> ae == Some(l.entryId1)
    ensures r.outcome == Normal || (r.outcome == Thrown(NullPointer) && ae.None?)
    decreases |targets|
  {
    if targets == [] then After(Normal, db)
    else
      match TargetEntry(db.entries, env, groupId, companyId, targets[0])
      case None => LinkTargets(db, env, groupId, companyId, ae, targets[1..])
      case Some(e2) =>
        if ae.None? then After(Thrown(NullPointer), db)
        else LinkTargets(db.AddLink(ae.value, e2), env, groupId, companyId, ae, targets[1..])
  }

  /**
   * What `processRelatedAssets` returns and leaves in the store for an article
   * whose resource primary key is `resourcePrimKey`. The primary entry is
   * fetched only under clear-all.
   */
  function ProcessRelatedAssetsSpec(db: Db, env: Env, related: Option<RelatedAssetsDecl>, resourcePrimKey: nat,
                                    groupId: int, companyId: int): (r: After)
    ensures r.db == db.(links := r.db.links)
    ensures r.outcome == Normal || r.outcome == Thrown(NullPointer)
    ensures (related.None? || !related.value.clearAllAssets) ==> r.db.links == db.links
    ensures related.Some? && related.value.clearAllAssets && r.outcome == Normal ==>
              forall l :: l in r.db.links && l !in db.links ==>
                Get(db.entries, AssetKey(JournalArticleClass, resourcePrimKey)) == Some(l.entryId1)
  {
    match related
    case None => After(Normal, db)
    case Some(ras) =>
      var primary := Get(db.entries, AssetKey(JournalArticleClass, resourcePrimKey));
      var ae := if ras.clearAllAssets then primary else None;
      var cleared := if ras.clearAllAssets && primary.Some? then db.DeleteLinks(primary.value) else db;
      if ras.relatedAsset.Some? && |ras.relatedAsset.value| > 0
      then LinkTargets(cleared, env, groupId, companyId, ae, ras.relatedAsset.value)
      else After(Normal, cleared)
  }

  method ProcessRelatedAssets(store: ContentStore, env: Env, related: Option<RelatedAssetsDecl>, resourcePrimKey: nat,
                              groupId: int, companyId: int) returns (outcome: Outcome)
    modifies store
    ensures After(outcome, store.Snapshot())
         == ProcessRelatedAssetsSpec(old(store.Snapshot()), env, related, resourcePrimKey, groupId, companyId)
  {
    if related.None? {
      return Normal;
    }
    var ras := related.value;
    var ae: Option<nat> := None;
    if ras.clearAllAssets {
      var entry := store.GetEntry(AssetKey(JournalArticleClass, resourcePrimKey));
      if entry.Some? {
        ae := entry;
        store.DeleteLinks(entry.value);
      }
    }
    if ras.relatedAsset.Some? && |ras.relatedAsset.value| > 0 {
      var ra := ras.relatedAsset.value;
      ghost var goal := LinkTargets(store.Snapshot(), env, groupId, companyId, ae, ra);
      var i := 0;
      while i < |ra|
        invariant 0 <= i <= |ra|
        invariant LinkTargets(store.Snapshot(), env, groupId, companyId, ae, ra[i..]) == goal
      {
        var r := ra[i];
        var clazzPrimKey := env.lookupAll(groupId, companyId, r.assetClassPrimaryKey);
        var id := 0;
        var parsed := ParseLong(clazzPrimKey);
        if parsed.Some? {
          id := parsed.value;
        }
        var ae2 := store.GetEntry(AssetKey(r.assetClass, id));
        assert ra[i..][1..] == ra[i + 1..];
        if ae2.Some? {
          if ae.None? {
            return Thrown(NullPointer);
          }
          store.AddLink(ae.value, ae2.value);
        }
        i := i + 1;
      }
    }
    return Normal;
  }

  // ---------------------------------------------------------------------------
  // Properties
  // ---------------------------------------------------------------------------

  /** The entries of the targets that have one. */
  function ResolvedEntries(entries: map<AssetKey, nat>, env: Env, groupId: int, companyId: int,
                           targets: seq<RelatedAssetDecl>): set<nat>
    decreases |targets|
  {
    if targets == [] then {}
    else
      (match TargetEntry(entries, env, groupId, companyId, targets[0])
       case None => {}
       case Some(e2) => {e2})
      + ResolvedEntries(entries, env, groupId, companyId, targets[1..])
  }

  /** The related links from `e` to each of `targets`. */
  function LinksFrom(e: nat, targets: set<nat>): set<Link> {
    set e2 | e2 in targets :: Link(e, e2)
  }

  /** The declared targets; an absent list is an empty one. */
  function Targets(ras: RelatedAssetsDecl): seq<RelatedAssetDecl> {
    if ras.relatedAsset.Some? then ras.relatedAsset.value else []
  }

  /**
   * Reference definition of the outcome: `NullPointerException` exactly when
   * some target has an entry but the primary entry was not fetched (no
   * clear-all, or the article has no entry).
   */
  function RelatedOutcome(entries: map<AssetKey, nat>, env: Env, related: Option<RelatedAssetsDecl>,
                          resourcePrimKey: nat, groupId: int, companyId: int): Outcome
  {
    match related
    case None => Normal
    case Some(ras) =>
      if !(ras.clearAllAssets && AssetKey(JournalArticleClass, resourcePrimKey) in entries)
         && ResolvedEntries(entries, env, groupId, companyId, Targets(ras)) != {}
      then Thrown(NullPointer)
      else Normal
  }

  /**
   * Reference definition of the links left behind: with clear-all and a
   * primary entry `e`, the links not touching `e` plus one link from `e` to
   * each target that has an entry; otherwise the links as they were.
   */
  function RelatedLinks(entries: map<AssetKey, nat>, links: set<Link>, env: Env, related: Option<RelatedAssetsDecl>,
                        resourcePrimKey: nat, groupId: int, companyId: int): set<Link>
  {
    match related
    case None => links
    case Some(ras) =>
      var pk := AssetKey(JournalArticleClass, resourcePrimKey);
      if ras.clearAllAssets && pk in entries
      then (set l | l in links && l.entryId1 != entries[pk] && l.entryId2 != entries[pk])
           + LinksFrom(entries[pk], ResolvedEntries(entries, env, groupId, companyId, Targets(ras)))
      else links
  }

  /**
   * From a fetched primary entry, the loop adds exactly one link to each
   * target that has an entry, keeps every link already there, and ends
   * normally: a target without an entry does not stop the ones after it.
   */
  lemma {:induction false} LinkTargetsFromEntry(db: Db, env: Env, groupId: int, companyId: int, e: nat,
                                                targets: seq<RelatedAssetDecl>)
    ensures LinkTargets(db, env, groupId, companyId, Some(e), targets)
         == After(Normal, db.(links := db.links + LinksFrom(e, ResolvedEntries(db.entries, env, groupId, companyId, targets))))
    decreases |targets|
  {
    if targets == [] {
      assert LinksFrom(e, {}) == {};
      assert db.(links := db.links + {}) == db;
    } else {
      var rest := targets[1..];
      var tail := ResolvedEntries(db.entries, env, groupId, companyId, rest);
      match TargetEntry(db.entries, env, groupId, companyId, targets[0])
      case None =>
        LinkTargetsFromEntry(db, env, groupId, companyId, e, rest);
      case Some(e2) =>
        var next := db.AddLink(e, e2);
        LinkTargetsFromEntry(next, env, groupId, companyId, e, rest);
        assert next.entries == db.entries;
        assert LinksFrom(e, {e2} + tail) == {Link(e, e2)} + LinksFrom(e, tail);
        assert next.links + LinksFrom(e, tail) == db.links + LinksFrom(e, {e2} + tail);
    }
  }

  /**
   * Without a primary entry, the first target that has an entry dereferences
   * `null`: the loop throws `NullPointerException` exactly when some target
   * has an entry, and adds no link either way.
   */
  lemma {:induction false} LinkTargetsWithoutEntry(db: Db, env: Env, groupId: int, companyId: int,
                                                   targets: seq<RelatedAssetDecl>)
    ensures LinkTargets(db, env, groupId, companyId, None, targets)
         == After(if ResolvedEntries(db.entries, env, groupId, companyId, targets) == {} then Normal
                  else Thrown(NullPointer), db)
    decreases |targets|
  {
    if targets != [] {
      LinkTargetsWithoutEntry(db, env, groupId, companyId, targets[1..]);
    }
  }

  /**
   * `processRelatedAssets` agrees with the reference definitions: it changes
   * nothing but the links, and its outcome and links are `RelatedOutcome` and
   * `RelatedLinks`.
   */
  lemma ProcessRelatedAssetsReference(db: Db, env: Env, related: Option<RelatedAssetsDecl>, resourcePrimKey: nat,
                                      groupId: int, companyId: int)
    ensures ProcessRelatedAssetsSpec(db, env, related, resourcePrimKey, groupId, companyId)
         == After(RelatedOutcome(db.entries, env, related, resourcePrimKey, groupId, companyId),
                  db.(links := RelatedLinks(db.entries, db.links, env, related, resourcePrimKey, groupId, companyId)))
  {
    if related.Some? {
      var ras := related.value;
      var pk := AssetKey(JournalArticleClass, resourcePrimKey);
      var nonEmpty := ras.relatedAsset.Some? && |ras.relatedAsset.value| > 0;
      if !nonEmpty {
        assert ResolvedEntries(db.entries, env, groupId, companyId, Targets(ras)) == {};
      }
      if ras.clearAllAssets && pk in db.entries {
        var e := db.entries[pk];
        var cleared := db.DeleteLinks(e);
        if nonEmpty {
          LinkTargetsFromEntry(cleared, env, groupId, companyId, e, ras.relatedAsset.value);
        } else {
          assert LinksFrom(e, {}) == {};
          assert cleared.links + {} == cleared.links;
        }
      } else if nonEmpty {
        LinkTargetsWithoutEntry(db, env, groupId, companyId, ras.relatedAsset.value);
      }
    }
  }

  /** No related-asset declaration: nothing happens. */
  lemma NothingWithoutDeclaration(db: Db, env: Env, resourcePrimKey: nat, groupId: int, companyId: int)
    ensures ProcessRelatedAssetsSpec(db, env, None, resourcePrimKey, groupId, companyId) == After(Normal, db)
  {
  }

  /**
   * Without clear-all the primary entry is never fetched: as soon as one
   * target has an entry, `processRelatedAssets` throws
   * `NullPointerException`; no link is ever added or removed.
   */
  lemma NoClearAllDereferencesNull(db: Db, env: Env, ras: RelatedAssetsDecl, resourcePrimKey: nat, groupId: int, companyId: int)
    requires !ras.clearAllAssets
    ensures var r := ProcessRelatedAssetsSpec(db, env, Some(ras), resourcePrimKey, groupId, companyId);
            && r.db == db
            && (r.outcome == Thrown(NullPointer) <==> ResolvedEntries(db.entries, env, groupId, companyId, Targets(ras)) != {})
            && (r.outcome != Thrown(NullPointer) ==> r.outcome == Normal)
  {
    ProcessRelatedAssetsReference(db, env, Some(ras), resourcePrimKey, groupId, companyId);
  }

  /** Re-applying the links a processing left behind changes nothing. */
  lemma RelatedLinksIdempotent(entries: map<AssetKey, nat>, links: set<Link>, env: Env, related: Option<RelatedAssetsDecl>,
                               resourcePrimKey: nat, groupId: int, companyId: int)
    ensures var once := RelatedLinks(entries, links, env, related, resourcePrimKey, groupId, companyId);
            RelatedLinks(entries, once, env, related, resourcePrimKey, groupId, companyId) == once
  {
    var pk := AssetKey(JournalArticleClass, resourcePrimKey);
    if related.Some? && related.value.clearAllAssets && pk in entries {
      var e := entries[pk];
      var kept := set l | l in links && l.entryId1 != e && l.entryId2 != e;
      var added := LinksFrom(e, ResolvedEntries(entries, env, groupId, companyId, Targets(related.value)));
      assert (set l: Link | l in kept + added && l.entryId1 != e && l.entryId2 != e) == kept;
    }
  }

  /**
   * Processing the same declaration again, on a store that differs from what
   * the first processing left at most in its permission log, ends the same
   * way and changes nothing.
   */
  lemma RelatedAssetsIdempotent(db: Db, later: Db, env: Env, related: Option<RelatedAssetsDecl>, resourcePrimKey: nat,
                                groupId: int, companyId: int)
    requires var once := ProcessRelatedAssetsSpec(db, env, related, resourcePrimKey, groupId, companyId);
             later.Tables() == once.db.Tables()
    ensures var once := ProcessRelatedAssetsSpec(db, env, related, resourcePrimKey, groupId, companyId);
            ProcessRelatedAssetsSpec(later, env, related, resourcePrimKey, groupId, companyId) == After(once.outcome, later)
  {
    ProcessRelatedAssetsReference(db, env, related, resourcePrimKey, groupId, companyId);
    ProcessRelatedAssetsReference(later, env, related, resourcePrimKey, groupId, companyId);
    RelatedLinksIdempotent(db.entries, db.links, env, related, resourcePrimKey, groupId, companyId);
    assert later.entries == db.entries;
    assert later.links == RelatedLinks(db.entries, db.links, env, related, resourcePrimKey, groupId, companyId);
  }
}

/** `SetupWebFolders.setupWebFolders`: find or create each declared web folder and set its permissions. */
module SetupWebFolders {
  import opened Wrappers
  import opened Model
  import opened Store
  import opened Permissions
  import opened DriverLoop

  /** The permission call for a folder found under id `folderId`. */
  function FolderPermission(f: FolderDecl, folderId: int): PermissionCall {
    PermissionCall(JournalFolderClass, folderId, f.rolePermissions, FolderDefaults)
  }

  /**
   * One folder: `findWebFolder` (which creates missing folders) and then the
   * permission update; a `null` folder is dereferenced.
   */
  function FolderStep(env: Env, groupId: int): (Db, FolderDecl) -> After {
    (d: Db, f: FolderDecl) =>
      match env.findWebFolder(groupId, f.folderPath, f.description)
      case None => After(Thrown(NullPointer), d)
      case Some(id) => After(Normal, d.Grant(FolderPermission(f, id)))
  }

  /** What `setupWebFolders(site, groupId)` returns and leaves behind. Nothing is caught. */
  function SetupWebFoldersSpec(db: Db, env: Env, folders: seq<FolderDecl>, groupId: int): (r: After)
    ensures var calls := FolderCalls(env, groupId, folders);
            r == After(if |calls| == |folders| then Normal else Thrown(NullPointer),
                       db.(permissions := db.permissions + calls))
  {
    FolderRunReference(db, env, folders, groupId);
    RunEach(db, FolderStep(env, groupId), NoneCaught, folders)
  }

  method SetupWebFolders(store: ContentStore, env: Env, folders: seq<FolderDecl>, groupId: int) returns (outcome: Outcome)
    modifies store
    ensures After(outcome, store.Snapshot()) == SetupWebFoldersSpec(old(store.Snapshot()), env, folders, groupId)
  {
    ghost var goal := SetupWebFoldersSpec(store.Snapshot(), env, folders, groupId);
    for i := 0 to |folders|
      invariant RunEach(store.Snapshot(), FolderStep(env, groupId), NoneCaught, folders[i..]) == goal
    {
      assert folders[i..][1..] == folders[i + 1..];
      var af := folders[i];
      var jf := env.findWebFolder(groupId, af.folderPath, af.description);
      if jf.None? {
        return Thrown(NullPointer);
      }
      store.UpdatePermission(PermissionCall(JournalFolderClass, jf.value, af.rolePermissions, FolderDefaults));
    }
    return Normal;
  }

  // ---------------------------------------------------------------------------
  // Properties
  // ---------------------------------------------------------------------------

  /** The permission calls for the leading folders that are found, up to the first that is not. */
  function FolderCalls(env: Env, groupId: int, folders: seq<FolderDecl>): seq<PermissionCall>
    decreases |folders|
  {
    if folders == [] then []
    else
      match env.findWebFolder(groupId, folders[0].folderPath, folders[0].description)
      case None => []
      case Some(id) => [FolderPermission(folders[0], id)] + FolderCalls(env, groupId, folders[1..])
  }

  /**
   * The calls are, in order, one per folder of the longest prefix of
   * folders that are all found, each with that folder's id; the folder after
   * that prefix, if any, is not found.
   */
  lemma {:induction false} FolderCallsShape(env: Env, groupId: int, folders: seq<FolderDecl>)
    ensures var calls := FolderCalls(env, groupId, folders);
            && |calls| <= |folders|
            && (forall i :: 0 <= i < |calls| ==>
                  env.findWebFolder(groupId, folders[i].folderPath, folders[i].description) == Some(calls[i].resourceId)
                  && calls[i] == FolderPermission(folders[i], calls[i].resourceId))
            && (|calls| < |folders| ==>
                  env.findWebFolder(groupId, folders[|calls|].folderPath, folders[|calls|].description).None?)
    decreases |folders|
  {
    if folders != [] {
      FolderCallsShape(env, groupId, folders[1..]);
    }
  }

  /**
   * The folder loop only appends to the permission log: one call per folder
   * of the found prefix. It ends normally exactly when every folder is found,
   * and otherwise with `NullPointerException` at the first one that is not.
   */
  lemma {:induction false} FolderRunReference(db: Db, env: Env, folders: seq<FolderDecl>, groupId: int)
    ensures var calls := FolderCalls(env, groupId, folders);
            RunEach(db, FolderStep(env, groupId), NoneCaught, folders)
            == After(if |calls| == |folders| then Normal else Thrown(NullPointer),
                     db.(permissions := db.permissions + calls))
    decreases |folders|
  {
    FolderCallsShape(env, groupId, folders);
    if folders == [] {
      assert db.(permissions := db.permissions + []) == db;
    } else {
      match env.findWebFolder(groupId, folders[0].folderPath, folders[0].description)
      case None =>
        assert db.(permissions := db.permissions + []) == db;
      case Some(id) =>
        var next := db.Grant(FolderPermission(folders[0], id));
        FolderRunReference(next, env, folders[1..], groupId);
        FolderCallsShape(env, groupId, folders[1..]);
        assert next.permissions + FolderCalls(env, groupId, folders[1..])
            == db.permissions + FolderCalls(env, groupId, folders);
    }
  }

  /** Every folder found: the run ends normally and grants each folder, in order. */
  lemma AllFoundGrantsEach(db: Db, env: Env, folders: seq<FolderDecl>, groupId: int)
    requires forall i :: 0 <= i < |folders| ==>
               env.findWebFolder(groupId, folders[i].folderPath, folders[i].description).Some?
    ensures var r := SetupWebFoldersSpec(db, env, folders, groupId);
            && r.outcome == Normal
            && r.db.Tables() == db.Tables()
            && |r.db.permissions| == |db.permissions| + |folders|
            && forall i :: 0 <= i < |folders| ==>
                 r.db.permissions[|db.permissions| + i]
                 == FolderPermission(folders[i], env.findWebFolder(groupId, folders[i].folderPath, folders[i].description).value)
  {
    FolderCallsShape(env, groupId, folders);
  }
}

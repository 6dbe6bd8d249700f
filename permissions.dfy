/**
 * Role and action names, and the default permission tables the setup applies
 * when a declaration does not override a role.
 */
module Permissions {
  import opened Model

  const Owner: string := "Owner"
  const User: string := "User"
  const Guest: string := "Guest"

  const View: string := "VIEW"
  const Update: string := "UPDATE"
  const Delete: string := "DELETE"
  const PermissionsAction: string := "PERMISSIONS"
  const AddDiscussion: string := "ADD_DISCUSSION"
  const DeleteDiscussion: string := "DELETE_DISCUSSION"
  const UpdateDiscussion: string := "UPDATE_DISCUSSION"
  const Expire: string := "EXPIRE"
  const AddSubfolder: string := "ADD_SUBFOLDER"
  const AddArticle: string := "ADD_ARTICLE"
  const Subscribe: string := "SUBSCRIBE"
  const Access: string := "ACCESS"

  /** Articles: the owner may do everything on an article, users and guests may view it. */
  const ArticleDefaults: PermissionTable := map[
    Owner := [View, AddDiscussion, Delete, DeleteDiscussion, Expire, PermissionsAction, Update, UpdateDiscussion],
    User := [View],
    Guest := [View]]

  /** Structures: the owner may view, delete, update and change permissions; others view. */
  const StructureDefaults: PermissionTable := map[
    Owner := [View, Delete, Update, PermissionsAction],
    User := [View],
    Guest := [View]]

  /** Web folders. */
  const FolderDefaults: PermissionTable := map[
    Owner := [View, Update, PermissionsAction, Delete, AddSubfolder, AddArticle, Subscribe, Access],
    User := [View],
    Guest := [View]]

  /** Grants `VIEW` and nothing else to the two non-owner roles. */
  predicate ViewOnlyForOthers(t: PermissionTable) {
    && t.Keys == {Owner, User, Guest}
    && t[User] == [View] && t[Guest] == [View]
  }

  /**
   * The static initializer of `SetupArticles`: fills the article and structure
   * tables role by role. The two tables share their `User` and `Guest` lists.
   */
  method InitArticleTables() returns (articles: PermissionTable, ddm: PermissionTable)
    ensures articles == ArticleDefaults && ddm == StructureDefaults
    ensures ViewOnlyForOthers(articles) && ViewOnlyForOthers(ddm)
    ensures articles[Owner][0] == View && ddm[Owner][0] == View
  {
    articles, ddm := map[], map[];
    var actionsOwner: seq<string> := [];
    actionsOwner := actionsOwner + [View];
    actionsOwner := actionsOwner + [AddDiscussion];
    actionsOwner := actionsOwner + [Delete];
    actionsOwner := actionsOwner + [DeleteDiscussion];
    actionsOwner := actionsOwner + [Expire];
    actionsOwner := actionsOwner + [PermissionsAction];
    actionsOwner := actionsOwner + [Update];
    actionsOwner := actionsOwner + [UpdateDiscussion];
    var ddmActionsOwner: seq<string> := [];
    ddmActionsOwner := ddmActionsOwner + [View];
    ddmActionsOwner := ddmActionsOwner + [Delete];
    ddmActionsOwner := ddmActionsOwner + [Update];
    ddmActionsOwner := ddmActionsOwner + [PermissionsAction];
    assert actionsOwner == ArticleDefaults[Owner];
    assert ddmActionsOwner == StructureDefaults[Owner];
    articles := articles[Owner := actionsOwner];
    ddm := ddm[Owner := ddmActionsOwner];
    var actionsUser: seq<string> := [View];
    articles := articles[User := actionsUser];
    ddm := ddm[User := actionsUser];
    var actionsGuest: seq<string> := [View];
    articles := articles[Guest := actionsGuest];
    ddm := ddm[Guest := actionsGuest];
  }

  /** The static initializer of `SetupWebFolders`. */
  method InitFolderTable() returns (folders: PermissionTable)
    ensures folders == FolderDefaults
    ensures ViewOnlyForOthers(folders)
    ensures |folders[Owner]| == 8 && folders[Owner][0] == View && folders[Owner][7] == Access
  {
    folders := map[];
    var actionsOwner: seq<string> := [];
    actionsOwner := actionsOwner + [View];
    actionsOwner := actionsOwner + [Update];
    actionsOwner := actionsOwner + [PermissionsAction];
    actionsOwner := actionsOwner + [Delete];
    actionsOwner := actionsOwner + [AddSubfolder];
    actionsOwner := actionsOwner + [AddArticle];
    actionsOwner := actionsOwner + [Subscribe];
    actionsOwner := actionsOwner + [Access];
    assert actionsOwner == FolderDefaults[Owner];
    folders := folders[Owner := actionsOwner];
    var actionsUser: seq<string> := [View];
    folders := folders[User := actionsUser];
    var actionsGuest: seq<string> := [View];
    folders := folders[Guest := actionsGuest];
  }

  /** `SetupWebFolders.getDefaultPermissions`: the folder table itself. */
  function GetDefaultPermissions(): (t: PermissionTable)
    ensures t == FolderDefaults
    ensures ViewOnlyForOthers(t)
    ensures t[Owner] == [View, Update, PermissionsAction, Delete, AddSubfolder, AddArticle, Subscribe, Access]
  {
    FolderDefaults
  }
}

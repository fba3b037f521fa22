/**
 * Who may talk to the bot (`pkg/auth`): the members of configured Slack user
 * groups, collected per role by listing the workspace's user groups.
 */
module Auth {
  import opened Wrappers
  import opened Slice
  import opened SlackApi
  import opened Config

  /** The roles of `roles.go`. */
  const Base := "Base"
  const KubernetesAdmin := "KubernetesAdmin"
  const KubernetesUser := "KubernetesUser"

  const NoAuthorizedUser := "not a single user is authorized to respond to slack messages. check configured authorized user groups"

  /** The members of the groups whose names are listed, group after group, in listing order. */
  function GroupUsers(groups: seq<UserGroup>, names: seq<string>): seq<string> {
    if groups == [] then []
    else
      var prev := GroupUsers(groups[..|groups| - 1], names);
      var g := groups[|groups| - 1];
      if Contains(names, g.name) then prev + g.users else prev
  }

  /** A user is collected exactly when some listed group with a configured name has them as a member. */
  lemma {:induction false} GroupUsersMembers(groups: seq<UserGroup>, names: seq<string>, u: string)
    ensures u in GroupUsers(groups, names) <==> exists i :: 0 <= i < |groups| && Contains(names, groups[i].name) && u in groups[i].users
  {
    if groups != [] {
      var init := groups[..|groups| - 1];
      GroupUsersMembers(init, names, u);
      assert forall i :: 0 <= i < |init| ==> init[i] == groups[i];
    }
  }

  class Authorizer {
    const authorizedUserGroupNames: seq<string>
    const kubernetesUserGroupNames: seq<string>
    const kubernetesAdminGroupNames: seq<string>
    /** The workspace's user groups at each listing, or the error listing them. */
    const userGroups: nat -> Result<seq<UserGroup>>
    /** How many times the groups have been listed. */
    var listings: nat
    var authorizedUserIds: seq<string>
    var kubernetesAdminsUserIds: seq<string>
    var kubernetesUsersUserIds: seq<string>

    constructor (cfg: SlackConfig, userGroups: nat -> Result<seq<UserGroup>>)
      ensures authorizedUserGroupNames == cfg.authorizedUserGroupNames
      ensures kubernetesUserGroupNames == cfg.kubernetesUserGroupNames
      ensures kubernetesAdminGroupNames == cfg.kubernetesAdminGroupNames
      ensures this.userGroups == userGroups && listings == 0
      ensures authorizedUserIds == [] && kubernetesAdminsUserIds == [] && kubernetesUsersUserIds == []
    {
      authorizedUserGroupNames := cfg.authorizedUserGroupNames;
      kubernetesUserGroupNames := cfg.kubernetesUserGroupNames;
      kubernetesAdminGroupNames := cfg.kubernetesAdminGroupNames;
      this.userGroups := userGroups;
      listings := 0;
      authorizedUserIds, kubernetesAdminsUserIds, kubernetesUsersUserIds := [], [], [];
    }

    /** `IsUserAuthorized`: the user is in the list of the required role; an unknown role authorizes no one. */
    predicate IsUserAuthorized(userId: string, requiredUserRole: string)
      reads this
      ensures IsUserAuthorized(userId, requiredUserRole) <==>
        || (requiredUserRole == Base && userId in authorizedUserIds)
        || (requiredUserRole == KubernetesUser && userId in kubernetesUsersUserIds)
        || (requiredUserRole == KubernetesAdmin && userId in kubernetesAdminsUserIds)
    {
      if requiredUserRole == Base then Contains(authorizedUserIds, userId)
      else if requiredUserRole == KubernetesUser then Contains(kubernetesUsersUserIds, userId)
      else if requiredUserRole == KubernetesAdmin then Contains(kubernetesAdminsUserIds, userId)
      else false
    }

    /**
     * `getAuthorizedUserIDs`: lists the user groups and appends the members of
     * each configured group to its role's list. Nothing is removed, so the lists
     * only grow; a failed listing changes nothing.
     */
    method Refresh() returns (err: Option<string>)
      modifies this
      ensures listings == old(listings) + 1
      ensures userGroups(old(listings)).Err? ==>
        && err == Some("failed to list user groups: " + userGroups(old(listings)).error)
        && authorizedUserIds == old(authorizedUserIds)
        && kubernetesUsersUserIds == old(kubernetesUsersUserIds)
        && kubernetesAdminsUserIds == old(kubernetesAdminsUserIds)
      ensures userGroups(old(listings)).Ok? ==>
        var groups := userGroups(old(listings)).value;
        && authorizedUserIds == old(authorizedUserIds) + GroupUsers(groups, authorizedUserGroupNames)
        && kubernetesUsersUserIds == old(kubernetesUsersUserIds) + GroupUsers(groups, kubernetesUserGroupNames)
        && kubernetesAdminsUserIds == old(kubernetesAdminsUserIds) + GroupUsers(groups, kubernetesAdminGroupNames)
        && (err.None? <==> |authorizedUserIds| > 0)
        && (err.Some? ==> err == Some(NoAuthorizedUser))
    {
      var listed := userGroups(listings);
      listings := listings + 1;
      if listed.Err? {
        return Some("failed to list user groups: " + listed.error);
      }
      var groups := listed.value;
      var authorized, users, admins := authorizedUserIds, kubernetesUsersUserIds, kubernetesAdminsUserIds;
      var i := 0;
      while i < |groups|
        invariant 0 <= i <= |groups|
        invariant authorized == authorizedUserIds + GroupUsers(groups[..i], authorizedUserGroupNames)
        invariant users == kubernetesUsersUserIds + GroupUsers(groups[..i], kubernetesUserGroupNames)
        invariant admins == kubernetesAdminsUserIds + GroupUsers(groups[..i], kubernetesAdminGroupNames)
      {
        var ug := groups[i];
        assert groups[..i + 1][..i] == groups[..i];
        if Contains(authorizedUserGroupNames, ug.name) {
          authorized := authorized + ug.users;
        }
        if Contains(kubernetesUserGroupNames, ug.name) {
          users := users + ug.users;
        }
        if Contains(kubernetesAdminGroupNames, ug.name) {
          admins := admins + ug.users;
        }
        i := i + 1;
      }
      assert groups[..i] == groups;
      authorizedUserIds, kubernetesUsersUserIds, kubernetesAdminsUserIds := authorized, users, admins;
      if |authorizedUserIds| == 0 {
        return Some(NoAuthorizedUser);
      }
      return None;
    }
  }

  /**
   * `New`: an authorizer filled by a first listing, or the listing's error, or
   * an error when no member of an authorized group exists.
   */
  method NewAuthorizer(cfg: SlackConfig, userGroups: nat -> Result<seq<UserGroup>>) returns (r: Result<Authorizer>)
    ensures r.Err? <==> userGroups(0).Err? || |GroupUsers(userGroups(0).value, cfg.authorizedUserGroupNames)| == 0
    ensures r.Ok? ==> (fresh(r.value) && r.value.listings == 1
      && r.value.authorizedUserIds == GroupUsers(userGroups(0).value, cfg.authorizedUserGroupNames)
      && r.value.kubernetesUsersUserIds == GroupUsers(userGroups(0).value, cfg.kubernetesUserGroupNames)
      && r.value.kubernetesAdminsUserIds == GroupUsers(userGroups(0).value, cfg.kubernetesAdminGroupNames))
  {
    var a := new Authorizer(cfg, userGroups);
    var err := a.Refresh();
    if err.Some? {
      return Err(err.value);
    }
    return Ok(a);
  }
}

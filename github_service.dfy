/** src/github/github.service.ts: membership of the signed-in user in the
    configured organizations and teams, on top of one `GitHubApi` answer. */
module GitHubService {
  import opened Wrappers
  import opened Utils
  import opened ArrayOps
  import opened GitHubSource
  import ConfigService

  /** The git identity handed to the bootstrap script. */
  datatype Credentials = Credentials(gitName: string, gitEmail: string, gitHubUser: string)

  /** One row of the organization table of the profile page. */
  datatype OrganizationInfo = OrganizationInfo(name: string, link: string, isMember: bool)

  /** One row of the team table of the profile page. */
  datatype TeamInfo = TeamInfo(name: string, link: string, slug: string, isMember: bool)

  /** `getUserCredentials()`: the user's name, email and login under the
      names the script uses; fails when the user cannot be fetched. */
  function GetUserCredentials(gh: GitHub): (r: Result<Credentials, ApiError>)
    ensures r.Ok? <==> gh.user.Ok?
    ensures gh.user.Err? ==> r.error == gh.user.error
    ensures r.Ok? ==> r.value == Credentials(gh.user.value.name, gh.user.value.email, gh.user.value.login)
  {
    match gh.user
    case Err(e) => Err(e)
    case Ok(user) => Ok(Credentials(user.name, user.email, user.login))
  }

  // ---------------------------------------------------------------------------
  // Organizations

  /** `isInOrganization(login)`: is `login` among the logins of the user's
      organizations? Fails when that list cannot be fetched. */
  function IsInOrganization(gh: GitHub, login: string): (r: Result<bool, ApiError>)
    ensures r.Ok? <==> gh.userOrganizations.Ok?
    ensures r.Ok? ==> (r.value <==> exists i :: 0 <= i < |gh.userOrganizations.value|
                                          && gh.userOrganizations.value[i].login == login)
  {
    match gh.userOrganizations
    case Err(e) => Err(e)
    case Ok(organizations) => Ok(AnySatisfy(organizations, (o: UserOrganization) => o.login == login))
  }

  /** `isInOrganizations(logins)`: one flag per login, in order. */
  function IsInOrganizations(gh: GitHub, logins: seq<string>): (r: Result<seq<bool>, ApiError>)
    ensures r.Ok? <==> |logins| == 0 || gh.userOrganizations.Ok?
    ensures r.Ok? ==> |r.value| == |logins|
    ensures r.Ok? ==> forall i :: 0 <= i < |logins| ==> Ok(r.value[i]) == IsInOrganization(gh, logins[i])
  {
    var r := GetAll(logins, (login: string) => IsInOrganization(gh, login));
    assert |logins| > 0 && r.Ok? ==> IsInOrganization(gh, logins[0]).Ok?;
    r
  }

  /** `getOrgInfo()`: for every configured organization login, in order, the
      organization's name and page, and whether the user belongs to it. Fails
      when a login does not resolve, or (for a non-empty list) when the
      user's organizations cannot be fetched. */
  function GetOrgInfo(gh: GitHub, config: ConfigService.Config): (r: Result<seq<OrganizationInfo>, ApiError>)
    ensures r.Ok? <==> (forall i :: 0 <= i < |config.organizationLogins| ==> config.organizationLogins[i] in gh.organizations)
                       && (|config.organizationLogins| == 0 || gh.userOrganizations.Ok?)
    ensures r.Ok? ==> |r.value| == |config.organizationLogins|
    ensures r.Ok? ==> forall i :: 0 <= i < |r.value| ==>
      var login := config.organizationLogins[i];
      r.value[i].name == gh.organizations[login].name
      && r.value[i].link == gh.organizations[login].htmlUrl
      && Ok(r.value[i].isMember) == IsInOrganization(gh, login)
  {
    var logins := config.organizationLogins;
    match GetOrganizations(gh, logins)
    case Err(e) => Err(e)
    case Ok(organizations) =>
      match IsInOrganizations(gh, logins)
      case Err(e) => Err(e)
      case Ok(memberships) =>
        Ok(seq(|organizations|, i requires 0 <= i < |organizations| =>
          OrganizationInfo(organizations[i].name, organizations[i].htmlUrl, memberships[i])))
  }

  // ---------------------------------------------------------------------------
  // Teams

  /** The ids of a list of teams, in order. */
  function Ids(teams: seq<Team>): (r: seq<int>)
    ensures |r| == |teams|
    ensures forall i :: 0 <= i < |teams| ==> r[i] == teams[i].id
  {
    seq(|teams|, i requires 0 <= i < |teams| => teams[i].id)
  }

  /** `isInTeam(id)`: does one of the user's teams have `id` or the id of a
      team in the expansion of `id`? Fails when the user's teams cannot be
      fetched or the expansion fails. */
  function IsInTeam(gh: GitHubApi, id: int): (r: Result<bool, ApiError>)
    ensures r.Ok? <==> gh.userTeams.Ok? && GetAllChildTeams(gh, id).Ok?
    ensures id !in gh.teams ==> r.Err?
    ensures r.Ok? ==> (r.value <==>
      exists i :: 0 <= i < |gh.userTeams.value| && gh.userTeams.value[i].id in [id] + Ids(GetAllChildTeams(gh, id).value))
  {
    match gh.userTeams
    case Err(e) => Err(e)
    case Ok(userTeams) =>
      match GetAllChildTeams(gh, id)
      case Err(e) => Err(e)
      case Ok(childTeams) =>
        var validTeamIds := [id] + Ids(childTeams);
        Ok(AnySatisfy(userTeams, (team: Team) => team.id in validTeamIds))
  }

  /** `t` has the id of `root` or of a team below it in the hierarchy. */
  ghost predicate InSubtree(gh: GitHub, root: Team, t: Team) {
    exists x :: Reaches(gh, root, x) && x.id == t.id
  }

  /** Every team of the expansion of `root` is reachable from it. */
  lemma ExpandedIsReachable(gh: GitHubApi, root: Team, expansion: seq<Team>, j: int)
    requires ChildTeamsRecursively(gh, [root]) == Ok(expansion) && 0 <= j < |expansion|
    ensures Reaches(gh, root, expansion[j])
  {
    ExpansionIsReachable(gh, [root], expansion[j]);
  }

  /** Every team reachable from `root` is in its expansion. */
  lemma ReachableIsExpanded(gh: GitHubApi, root: Team, expansion: seq<Team>, x: Team)
    requires ChildTeamsRecursively(gh, [root]) == Ok(expansion) && Reaches(gh, root, x)
    ensures x in expansion
  {
    ExpansionIsReachable(gh, [root], x);
  }

  /** An id is among `[id] + ids(expansion)` exactly when it is `id` or the id
      of a team below `root`. */
  lemma ValidTeamId(gh: GitHubApi, id: int, root: Team, expansion: seq<Team>, t: Team)
    requires ChildTeamsRecursively(gh, [root]) == Ok(expansion)
    ensures t.id in [id] + Ids(expansion) <==> t.id == id || InSubtree(gh, root, t)
  {
    var valid := [id] + Ids(expansion);
    if t.id in valid && t.id != id {
      var j :| 0 <= j < |valid| && valid[j] == t.id;
      ExpandedIsReachable(gh, root, expansion, j - 1);
    }
    if InSubtree(gh, root, t) {
      var x :| Reaches(gh, root, x) && x.id == t.id;
      ReachableIsExpanded(gh, root, expansion, x);
      var j :| 0 <= j < |expansion| && expansion[j] == x;
      assert valid[j + 1] == t.id;
    }
  }

  /** Membership of a sub-team counts as membership of the team: `isInTeam(id)`
      holds exactly when one of the user's teams is the team `id` or any team
      reachable from it along direct-child edges. */
  lemma IsInTeamMeaning(gh: GitHubApi, id: int)
    requires IsInTeam(gh, id).Ok?
    ensures IsInTeam(gh, id).value <==>
      exists i :: 0 <= i < |gh.userTeams.value| &&
        (gh.userTeams.value[i].id == id || InSubtree(gh, GetTeam(gh, id).value, gh.userTeams.value[i]))
  {
    var root := GetTeam(gh, id).value;
    var expansion := GetAllChildTeams(gh, id).value;
    var userTeams := gh.userTeams.value;
    assert ChildTeamsRecursively(gh, [root]) == Ok(expansion);
    forall i | 0 <= i < |userTeams|
      ensures userTeams[i].id in [id] + Ids(expansion) <==> userTeams[i].id == id || InSubtree(gh, root, userTeams[i])
    {
      ValidTeamId(gh, id, root, expansion, userTeams[i]);
    }
  }

  /** `isInTeams(ids)`: one flag per team id, in order. */
  function IsInTeams(gh: GitHubApi, ids: seq<int>): (r: Result<seq<bool>, ApiError>)
    ensures r.Ok? <==> forall i :: 0 <= i < |ids| ==> IsInTeam(gh, ids[i]).Ok?
    ensures r.Ok? ==> |r.value| == |ids|
    ensures r.Ok? ==> forall i :: 0 <= i < |ids| ==> Ok(r.value[i]) == IsInTeam(gh, ids[i])
  {
    GetAll(ids, (id: int) => IsInTeam(gh, id))
  }

  /** `getTeamInfo()`: for every configured team id, in order, the team's
      name, page and slug, and whether the user is in it or in a team below
      it. */
  function GetTeamInfo(gh: GitHubApi, config: ConfigService.Config): (r: Result<seq<TeamInfo>, ApiError>)
    ensures r.Ok? <==> forall i :: 0 <= i < |config.teamIds| ==>
                         config.teamIds[i] in gh.teams && IsInTeam(gh, config.teamIds[i]).Ok?
    ensures r.Ok? ==> |r.value| == |config.teamIds|
    ensures r.Ok? ==> forall i :: 0 <= i < |r.value| ==>
      var team := GetTeam(gh, config.teamIds[i]).value;
      r.value[i] == TeamInfo(team.name, team.htmlUrl, team.slug, r.value[i].isMember)
      && Ok(r.value[i].isMember) == IsInTeam(gh, config.teamIds[i])
  {
    var ids := config.teamIds;
    match GetTeams(gh, ids)
    case Err(e) => Err(e)
    case Ok(teams) =>
      match IsInTeams(gh, ids)
      case Err(e) => Err(e)
      case Ok(memberships) =>
        Ok(seq(|teams|, i requires 0 <= i < |teams| =>
          TeamInfo(teams[i].name, teams[i].htmlUrl, teams[i].slug, memberships[i])))
  }
}

/** Worked examples of the membership rules on small GitHub answers. */
module GitHubServiceExamples {
  import opened Wrappers
  import opened GitHubSource
  import opened GitHubService
  import ConfigService

  /** A configuration that names the given organizations and teams. */
  function Configured(logins: seq<string>, teamIds: seq<int>): (c: ConfigService.Config)
    ensures c.organizationLogins == logins && c.teamIds == teamIds
  {
    ConfigService.Config(logins, teamIds, "key", "secret", [], "https://artifactory", "token", "npm", "@scope", None)
  }

  const Root := Team(1, "root", "root", "", "acme")
  const Child := Team(2, "child", "child", "", "acme")
  const Grandchild := Team(3, "grandchild", "grandchild", "", "acme")

  /** Team `root`(1) has child `child`(2), which has child `grandchild`(3);
      the user's only team is the grandchild. */
  const Chain: GitHubApi := GitHub(Err(NotFound), Err(NotFound), Ok([Grandchild]), map[],
    map[1 := Root, 2 := Child, 3 := Grandchild],
    map[1 := [Child], 2 := [Grandchild], 3 := []],
    map[1 := 2, 2 := 1, 3 := 0])

  /** Below the root: the child, then the grandchild. */
  lemma ChainLowerLevels()
    ensures ChildTeamsRecursively(Chain, [Child]) == Ok([Child, Grandchild])
  {
    LeavesExpandToThemselves(Chain, [Grandchild]);
    assert AllKids(Chain, [Child]) == [Grandchild];
    ExpansionUnfolds(Chain, [Child]);
    assert [Child] + [Grandchild] == [Child, Grandchild];
  }

  /** The expansion of the root team: the root as fetched, then its child,
      then its grandchild. */
  lemma ChainExpansion()
    ensures GetAllChildTeams(Chain, 1) == Ok([Root.(htmlUrl := TeamUrl("acme", "root")), Child, Grandchild])
  {
    var rootFetched := Root.(htmlUrl := TeamUrl("acme", "root"));
    assert GetTeam(Chain, 1) == Ok(rootFetched);
    ChainLowerLevels();
    assert AllKids(Chain, [rootFetched]) == [Child];
    ExpansionUnfolds(Chain, [rootFetched]);
    assert [rootFetched] + [Child, Grandchild] == [rootFetched, Child, Grandchild];
  }

  /** Membership of the grandchild counts as membership of the root team. */
  lemma GrandchildCountsForRoot()
    ensures IsInTeam(Chain, 1) == Ok(true)
  {
    ChainExpansion();
    var expansion := GetAllChildTeams(Chain, 1).value;
    assert Ids(expansion) == [1, 2, 3];
    assert Grandchild.id in [1] + Ids(expansion);
  }

  const Acme := Organization("acme", "Acme", "https://github.com/acme")
  const Other := Organization("other", "Other", "https://github.com/other")

  /** Two organizations exist; the user belongs to `acme` only. */
  const TwoOrganizations: GitHubApi := GitHub(Err(NotFound), Ok([UserOrganization("acme", 7)]), Ok([]),
    map["acme" := Acme, "other" := Other], map[], map[], map[])

  /** The organization table follows the configured order and marks only the
      organization the user belongs to. */
  lemma OrgInfoFollowsConfiguredOrder()
    ensures GetOrgInfo(TwoOrganizations, Configured(["acme", "other"], [])) ==
      Ok([OrganizationInfo("Acme", "https://github.com/acme", true),
          OrganizationInfo("Other", "https://github.com/other", false)])
  {
    var r := GetOrgInfo(TwoOrganizations, Configured(["acme", "other"], []));
    assert IsInOrganization(TwoOrganizations, "acme") == Ok(true);
    assert IsInOrganization(TwoOrganizations, "other") == Ok(false);
    assert r.Ok?;
    assert |r.value| == 2;
    assert r.value[0] == OrganizationInfo("Acme", "https://github.com/acme", true);
    assert r.value[1] == OrganizationInfo("Other", "https://github.com/other", false);
    assert r.value == [OrganizationInfo("Acme", "https://github.com/acme", true),
                       OrganizationInfo("Other", "https://github.com/other", false)];
  }

  const Top := Team(1, "top", "top", "", "acme")
  const Left := Team(2, "left", "left", "", "acme")
  const Right := Team(3, "right", "right", "", "acme")
  const Shared := Team(4, "shared", "shared", "", "acme")

  /** Team 4 sits below both children of team 1. */
  const Diamond: GitHubApi := GitHub(Err(NotFound), Err(NotFound), Ok([]), map[],
    map[1 := Top, 2 := Left, 3 := Right, 4 := Shared],
    map[1 := [Left, Right], 2 := [Shared], 3 := [Shared], 4 := []],
    map[1 := 2, 2 := 1, 3 := 1, 4 := 0])

  /** The level below the top: both children, then the shared team once per
      parent. */
  lemma DiamondLowerLevels()
    ensures ChildTeamsRecursively(Diamond, [Left, Right]) == Ok([Left, Right, Shared, Shared])
  {
    LeavesExpandToThemselves(Diamond, [Shared, Shared]);
    assert [Left, Right][1..] == [Right];
    assert AllKids(Diamond, [Right]) == [Shared];
    assert AllKids(Diamond, [Left, Right]) == [Shared] + [Shared];
    assert [Shared] + [Shared] == [Shared, Shared];
    ExpansionUnfolds(Diamond, [Left, Right]);
    assert [Left, Right] + [Shared, Shared] == [Left, Right, Shared, Shared];
  }

  /** The expansion does not deduplicate: a team reached along two paths is
      listed twice. */
  lemma DiamondListsSharedTeamTwice()
    ensures GetAllChildTeams(Diamond, 1) ==
      Ok([Top.(htmlUrl := TeamUrl("acme", "top")), Left, Right, Shared, Shared])
  {
    var topFetched := Top.(htmlUrl := TeamUrl("acme", "top"));
    assert GetTeam(Diamond, 1) == Ok(topFetched);
    DiamondLowerLevels();
    assert AllKids(Diamond, [topFetched]) == [Left, Right];
    ExpansionUnfolds(Diamond, [topFetched]);
    assert [topFetched] + [Left, Right, Shared, Shared] == [topFetched, Left, Right, Shared, Shared];
  }
}

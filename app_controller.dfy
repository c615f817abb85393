/** src/app.controller.ts: the profile page and the OAuth callback. What GitHub
    answers for the session's token is the `GitHubApi` value `gh`; what
    Artifactory answers is a `Directory`, one for the `isUser` lookup and one
    for the group lookups that follow it (two separate requests, which may be
    answered differently). */
module AppController {
  import opened Wrappers
  import opened ArrayOps
  import opened GitHubSource
  import opened GitHubService
  import opened ArtifactoryService
  import opened Sessions
  import ConfigService

  const ArtifactoryFailure := "could not access the Artifactory API"
  const MissingCode := "failed to authenticate; did not receive code from GitHub"
  const ExchangeFailure := "failed to authenticate with GitHub"

  /** The view model of the profile page. */
  datatype ProfileView = ProfileView(
    profile: Credentials,
    organizations: seq<OrganizationInfo>,
    teams: seq<TeamInfo>,
    isInAnyTeams: bool,
    isArtifactoryUser: bool,
    artifactoryGroups: seq<GroupInfo>,
    artifactoryBaseUrl: string)

  /** What the GitHub step of `root` produces. */
  datatype GitHubFacts = GitHubFacts(organizations: seq<OrganizationInfo>, profile: Credentials, teams: seq<TeamInfo>)

  /** What the Artifactory step of `root` produces. */
  datatype ArtifactoryFacts = ArtifactoryFacts(isArtifactoryUser: bool, groups: seq<GroupInfo>)

  predicate AllMembers(organizations: seq<OrganizationInfo>) {
    AllSatisfy(organizations, (o: OrganizationInfo) => o.isMember)
  }

  /** The GitHub step: the organization table and the credentials, and the
      team table only when the user is in every configured organization. */
  function GitHubStep(gh: GitHubApi, config: ConfigService.Config): Result<GitHubFacts, ApiError> {
    match GetOrgInfo(gh, config)
    case Err(e) => Err(e)
    case Ok(orgInfo) =>
      match GetUserCredentials(gh)
      case Err(e) => Err(e)
      case Ok(userCredentials) =>
        if AllMembers(orgInfo) then
          match GetTeamInfo(gh, config)
          case Err(e) => Err(e)
          case Ok(teamInfo) => Ok(GitHubFacts(orgInfo, userCredentials, teamInfo))
        else Ok(GitHubFacts(orgInfo, userCredentials, []))
  }

  /** The Artifactory step: whether the GitHub login is an Artifactory user,
      and its group table only if it is. */
  function ArtifactoryStep(config: ConfigService.Config, first: Directory, later: Directory, login: string)
    : Result<ArtifactoryFacts, ArtifactoryError>
  {
    if IsUser(first, login) then
      match IsInGroups(config, later, login)
      case Err(e) => Err(e)
      case Ok(groups) => Ok(ArtifactoryFacts(true, groups))
    else Ok(ArtifactoryFacts(false, []))
  }

  /** What `root` answers, as a function of the token and of what the two
      APIs answer. */
  function ProfilePage(config: ConfigService.Config, token: Option<string>, gh: GitHubApi,
                       first: Directory, later: Directory): (r: Response<ProfileView>)
    ensures r == Authenticate <==> !Truthy(token)
    ensures r.Render? ==> r.view.artifactoryBaseUrl == config.artifactoryBaseUrl
    ensures r.Render? ==> (r.view.isInAnyTeams <==> exists i :: 0 <= i < |r.view.teams| && r.view.teams[i].isMember)
  {
    if !Truthy(token) then Authenticate
    else
      match GitHubStep(gh, config)
      case Err(_) => HttpException(InternalServerError, GitHubFailure)
      case Ok(github) =>
        match ArtifactoryStep(config, first, later, github.profile.gitHubUser)
        case Err(_) => HttpException(InternalServerError, ArtifactoryFailure)
        case Ok(artifactory) =>
          Render(ProfileView(
            github.profile, github.organizations, github.teams,
            AnySatisfy(github.teams, (t: TeamInfo) => t.isMember),
            artifactory.isArtifactoryUser, artifactory.groups, BaseUrl(config)))
  }

  /** A rendered page holds the organization table and the credentials as the
      GitHub service computes them. */
  lemma ProfileShowsOrganizationsAndCredentials(config: ConfigService.Config, token: Option<string>, gh: GitHubApi,
                                                first: Directory, later: Directory)
    requires ProfilePage(config, token, gh, first, later).Render?
    ensures GetOrgInfo(gh, config).Ok? && GetUserCredentials(gh).Ok?
    ensures ProfilePage(config, token, gh, first, later).view.organizations == GetOrgInfo(gh, config).value
    ensures ProfilePage(config, token, gh, first, later).view.profile == GetUserCredentials(gh).value
  {
  }

  /** Teams are looked up only for a user in every configured organization
      (so always when none is configured); otherwise the team table is empty. */
  lemma TeamsOnlyForMembersOfEveryOrganization(config: ConfigService.Config, token: Option<string>, gh: GitHubApi,
                                               first: Directory, later: Directory)
    requires ProfilePage(config, token, gh, first, later).Render?
    ensures var view := ProfilePage(config, token, gh, first, later).view;
      (forall i :: 0 <= i < |config.organizationLogins| ==> IsInOrganization(gh, config.organizationLogins[i]) == Ok(true))
        ==> GetTeamInfo(gh, config) == Ok(view.teams)
    ensures var view := ProfilePage(config, token, gh, first, later).view;
      (exists i :: 0 <= i < |config.organizationLogins| && IsInOrganization(gh, config.organizationLogins[i]) == Ok(false))
        ==> view.teams == []
  {
    var orgInfo := GetOrgInfo(gh, config).value;
    if forall i :: 0 <= i < |config.organizationLogins| ==> IsInOrganization(gh, config.organizationLogins[i]) == Ok(true) {
      assert AllMembers(orgInfo);
    }
    if i :| 0 <= i < |config.organizationLogins| && IsInOrganization(gh, config.organizationLogins[i]) == Ok(false) {
      assert !orgInfo[i].isMember;
    }
  }

  /** Any failure of the GitHub step is a 500 whatever Artifactory would
      answer: the Artifactory step is not reached. */
  lemma GitHubFailureIsServerError(config: ConfigService.Config, token: Option<string>, gh: GitHubApi,
                                   first: Directory, later: Directory)
    requires Truthy(token)
    requires GetOrgInfo(gh, config).Err? || GetUserCredentials(gh).Err?
             || (AllMembers(GetOrgInfo(gh, config).value) && GetTeamInfo(gh, config).Err?)
    ensures ProfilePage(config, token, gh, first, later) == HttpException(InternalServerError, GitHubFailure)
    ensures forall first', later' :: ProfilePage(config, token, gh, first', later') == ProfilePage(config, token, gh, first, later)
  {
  }

  /** In particular, when the user's organizations cannot be fetched and an
      organization is configured, the page is that 500. */
  lemma OrganizationsFailureIsServerError(config: ConfigService.Config, token: Option<string>, gh: GitHubApi,
                                          first: Directory, later: Directory)
    requires Truthy(token) && |config.organizationLogins| > 0 && gh.userOrganizations.Err?
    ensures ProfilePage(config, token, gh, first, later) == HttpException(InternalServerError, GitHubFailure)
  {
    GitHubFailureIsServerError(config, token, gh, first, later);
  }

  /** Groups are looked up only for an Artifactory user; for anyone else the
      group table is empty and no lookup can fail. */
  lemma GroupsOnlyForArtifactoryUsers(config: ConfigService.Config, token: Option<string>, gh: GitHubApi,
                                      first: Directory, later: Directory)
    requires Truthy(token) && GitHubStep(gh, config).Ok?
    ensures var login := GetUserCredentials(gh).value.gitHubUser;
      !IsUser(first, login) ==>
        ProfilePage(config, token, gh, first, later).Render?
        && !ProfilePage(config, token, gh, first, later).view.isArtifactoryUser
        && ProfilePage(config, token, gh, first, later).view.artifactoryGroups == []
    ensures var login := GetUserCredentials(gh).value.gitHubUser;
      IsUser(first, login) && IsInGroups(config, later, login).Ok? ==>
        ProfilePage(config, token, gh, first, later).Render?
        && ProfilePage(config, token, gh, first, later).view.isArtifactoryUser
        && ProfilePage(config, token, gh, first, later).view.artifactoryGroups == IsInGroups(config, later, login).value
  {
  }

  /** A failed group lookup for an Artifactory user is a 500 of its own. */
  lemma ArtifactoryFailureIsServerError(config: ConfigService.Config, token: Option<string>, gh: GitHubApi,
                                        first: Directory, later: Directory)
    requires Truthy(token) && GitHubStep(gh, config).Ok?
    requires IsUser(first, GetUserCredentials(gh).value.gitHubUser)
    requires IsInGroups(config, later, GetUserCredentials(gh).value.gitHubUser).Err?
    ensures ProfilePage(config, token, gh, first, later) == HttpException(InternalServerError, ArtifactoryFailure)
  {
  }

  /** What `callback` answers for the code it received and what exchanging
      that code for a token answers. */
  function CallbackResponse<E>(code: Option<string>, exchange: Result<string, E>, redirectTo: Option<string>)
    : (r: Response<()>)
    ensures !Truthy(code) ==> r == HttpException(BadRequest, MissingCode)
    ensures Truthy(code) && exchange.Err? ==> r == HttpException(InternalServerError, ExchangeFailure)
    ensures Truthy(code) && exchange.Ok? ==> r.Redirect? && r.location != ""
    ensures Truthy(code) && exchange.Ok? && Truthy(redirectTo) ==> r == Redirect(redirectTo.value)
    ensures Truthy(code) && exchange.Ok? && !Truthy(redirectTo) ==> r == Redirect("/")
  {
    if !Truthy(code) then HttpException(BadRequest, MissingCode)
    else if exchange.Err? then HttpException(InternalServerError, ExchangeFailure)
    else Redirect(if Truthy(redirectTo) then redirectTo.value else "/")
  }

  /** The handlers of the root page and of the OAuth callback. */
  class Controller {
    const config: ConfigService.Config

    constructor (config: ConfigService.Config)
      ensures this.config == config
    {
      this.config := config;
    }

    /** `root(res, session)`: without a token, remember to come back to `/`
        and send the user to sign in; otherwise build the profile page. */
    method Root(session: Session, gh: GitHubApi, first: Directory, later: Directory) returns (r: Response<ProfileView>)
      modifies session
      ensures r == ProfilePage(config, old(session.token), gh, first, later)
      ensures session.token == old(session.token)
      ensures session.redirectTo == if Truthy(old(session.token)) then old(session.redirectTo) else Some("/")
    {
      if !Truthy(session.token) {
        session.redirectTo := Some("/");
        return Authenticate;
      }

      var teamInfo: seq<TeamInfo> := [];
      var artifactoryGroups: seq<GroupInfo> := [];
      var isArtifactoryUser := false;

      var orgResult := GetOrgInfo(gh, config);
      var credentialsResult := GetUserCredentials(gh);
      if orgResult.Err? || credentialsResult.Err? {
        return HttpException(InternalServerError, GitHubFailure);
      }
      var orgInfo := orgResult.value;
      var userCredentials := credentialsResult.value;
      if AllMembers(orgInfo) {
        var teamResult := GetTeamInfo(gh, config);
        if teamResult.Err? {
          return HttpException(InternalServerError, GitHubFailure);
        }
        teamInfo := teamResult.value;
      }

      isArtifactoryUser := IsUser(first, userCredentials.gitHubUser);
      if isArtifactoryUser {
        var groupResult := IsInGroups(config, later, userCredentials.gitHubUser);
        if groupResult.Err? {
          return HttpException(InternalServerError, ArtifactoryFailure);
        }
        artifactoryGroups := groupResult.value;
      }

      return Render(ProfileView(
        userCredentials, orgInfo, teamInfo,
        AnySatisfy(teamInfo, (t: TeamInfo) => t.isMember),
        isArtifactoryUser, artifactoryGroups, BaseUrl(config)));
    }

    /** `callback(code, res, session)`: `exchange` is what trading the code
        for a token answers. A missing code is refused before any exchange; a
        failed exchange leaves the session as it was; a successful one stores
        the token, redirects back, and forgets where to. */
    method Callback<E>(code: Option<string>, exchange: Result<string, E>, session: Session) returns (r: Response<()>)
      modifies session
      ensures r == CallbackResponse(code, exchange, old(session.redirectTo))
      ensures r.Redirect? ==> session.token == Some(exchange.value) && session.redirectTo == None
      ensures !r.Redirect? ==> session.token == old(session.token) && session.redirectTo == old(session.redirectTo)
    {
      if !Truthy(code) {
        return HttpException(BadRequest, MissingCode);
      }
      if exchange.Err? {
        return HttpException(InternalServerError, ExchangeFailure);
      }
      session.token := Some(exchange.value);
      r := Redirect(if Truthy(session.redirectTo) then session.redirectTo.value else "/");
      session.redirectTo := None;
    }
  }
}

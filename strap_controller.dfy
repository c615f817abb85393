/** src/strap.sh/strap.sh.controller.ts: the data the bootstrap-script
    template is rendered with, and the two routes that serve it. */
module StrapShController {
  import opened Wrappers
  import opened ArrayOps
  import opened GitHubSource
  import opened GitHubService
  import opened Sessions
  import opened StrapShService
  import ConfigService

  /** The view model of the script: the user's credentials, the slugs of the
      user's teams, the token, the npm registry settings and the script texts. */
  datatype ScriptData = ScriptData(
    gitName: string,
    gitEmail: string,
    gitHubUser: string,
    repoSets: string,
    gitHubToken: string,
    artifactoryBaseUrl: string,
    artifactoryNpmRepoName: string,
    artifactoryNpmPackageScope: string,
    script: string,
    customScript: string)

  /** `teamInfo.filter((t) => t.isMember).map((t) => t.slug)`. */
  function MemberSlugs(teams: seq<TeamInfo>): (r: seq<string>)
    ensures |r| <= |teams|
    ensures forall x :: x in r <==> exists i :: 0 <= i < |teams| && teams[i].isMember && teams[i].slug == x
  {
    if teams == [] then []
    else
      var rest := MemberSlugs(teams[1..]);
      assert forall i :: 1 <= i < |teams| ==> teams[i] == teams[1..][i - 1];
      (if teams[0].isMember then [teams[0].slug] else []) + rest
  }

  /** A single team contributes its slug exactly when the user is in it. */
  lemma MemberSlugsOfOne(t: TeamInfo)
    ensures MemberSlugs([t]) == if t.isMember then [t.slug] else []
  {
  }

  /** Filtering keeps the order: the slugs of two lists one after the other
      are the slugs of the first followed by those of the second. With
      MemberSlugsOfOne this fixes the order and the repetitions of the
      result, not only which slugs occur. */
  lemma {:induction false} MemberSlugsAppend(a: seq<TeamInfo>, b: seq<TeamInfo>)
    ensures MemberSlugs(a + b) == MemberSlugs(a) + MemberSlugs(b)
    decreases |a|
  {
    if a == [] {
      assert a + b == b;
    } else {
      assert (a + b)[0] == a[0];
      assert (a + b)[1..] == a[1..] + b;
      MemberSlugsAppend(a[1..], b);
    }
  }

  /** The controller's settings, read once when it is built. */
  class Controller {
    const config: ConfigService.Config
    const script: string
    const customScript: string
    const artifactoryBaseUrl: string := config.artifactoryBaseUrl
    const artifactoryNpmRepoName: string := config.artifactoryNpmRepoName
    const artifactoryNpmPackageScope: string := config.artifactoryNpmPackageScope

    /** `scriptFile` is the text of the bundled script; `readFile` gives the
        text of a file by path. The custom script is read only when one is
        configured, and is empty otherwise. */
    constructor (config: ConfigService.Config, scriptFile: string, readFile: string -> string)
      ensures this.config == config
      ensures script == RemoveShebang(scriptFile)
      ensures customScript == if Truthy(config.customScript) then readFile(config.customScript.value) else ""
    {
      this.config := config;
      script := RemoveShebang(scriptFile);
      if Truthy(config.customScript) {
        customScript := readFile(config.customScript.value);
      } else {
        customScript := "";
      }
    }

    /** `getScriptData(token, res)`: without a token, send the user to sign
        in; otherwise fetch the team table and the credentials, and render the
        script with the comma-separated slugs of the teams the user is in.
        Any GitHub failure is a 500. */
    function GetScriptData(token: Option<string>, gh: GitHubApi): (r: Response<ScriptData>)
      ensures !Truthy(token) ==> r == Authenticate
      ensures Truthy(token) && (GetTeamInfo(gh, config).Err? || GetUserCredentials(gh).Err?) ==>
        r == HttpException(InternalServerError, GitHubFailure)
      ensures r.Render? <==> Truthy(token) && GetTeamInfo(gh, config).Ok? && GetUserCredentials(gh).Ok?
      ensures r.Render? ==>
        var credentials := GetUserCredentials(gh).value;
        r.view.gitName == credentials.gitName && r.view.gitEmail == credentials.gitEmail
        && r.view.gitHubUser == credentials.gitHubUser
        && r.view.gitHubToken == token.value
        && r.view.repoSets == Join(MemberSlugs(GetTeamInfo(gh, config).value), ',')
        && r.view.artifactoryBaseUrl == config.artifactoryBaseUrl
        && r.view.artifactoryNpmRepoName == config.artifactoryNpmRepoName
        && r.view.artifactoryNpmPackageScope == config.artifactoryNpmPackageScope
        && r.view.script == script && r.view.customScript == customScript
    {
      if !Truthy(token) then Authenticate
      else
        match GetTeamInfo(gh, config)
        case Err(_) => HttpException(InternalServerError, GitHubFailure)
        case Ok(teamInfo) =>
          match GetUserCredentials(gh)
          case Err(_) => HttpException(InternalServerError, GitHubFailure)
          case Ok(userCredentials) =>
            var teamSlugs := Join(MemberSlugs(teamInfo), ',');
            Render(ScriptData(
              userCredentials.gitName, userCredentials.gitEmail, userCredentials.gitHubUser,
              teamSlugs, token.value,
              artifactoryBaseUrl, artifactoryNpmRepoName, artifactoryNpmPackageScope,
              script, customScript))
    }

    /** `download(res, session)`: remember to come back to `/strap.sh`, then
        answer with the script data. */
    method Download(session: Session, gh: GitHubApi) returns (r: Response<ScriptData>)
      modifies session
      ensures session.redirectTo == Some("/strap.sh") && session.token == old(session.token)
      ensures r == GetScriptData(old(session.token), gh)
    {
      session.redirectTo := Some("/strap.sh");
      r := GetScriptData(session.token, gh);
    }

    /** `preview(res, session)`: remember to come back to
        `/strap.sh/preview`, then answer with the script data. */
    method Preview(session: Session, gh: GitHubApi) returns (r: Response<ScriptData>)
      modifies session
      ensures session.redirectTo == Some("/strap.sh/preview") && session.token == old(session.token)
      ensures r == GetScriptData(old(session.token), gh)
    {
      session.redirectTo := Some("/strap.sh/preview");
      r := GetScriptData(session.token, gh);
    }
  }

  /** The rendered `repoSets` names exactly the teams the user is in: split at
      the commas it gives back the slugs of the member teams, in configured
      order, and it is empty when the user is in none of them. */
  lemma RepoSetsListsMemberTeams(c: Controller, token: Option<string>, gh: GitHubApi)
    requires c.GetScriptData(token, gh).Render?
    requires forall i :: 0 <= i < |c.config.teamIds| ==> ',' !in GetTeam(gh, c.config.teamIds[i]).value.slug
    ensures var slugs := MemberSlugs(GetTeamInfo(gh, c.config).value);
      var repoSets := c.GetScriptData(token, gh).view.repoSets;
      (slugs == [] ==> repoSets == "") && (slugs != [] ==> Split(repoSets, ',') == slugs)
    ensures forall x :: x in MemberSlugs(GetTeamInfo(gh, c.config).value) <==>
      exists i :: 0 <= i < |c.config.teamIds| && IsInTeam(gh, c.config.teamIds[i]) == Ok(true)
                  && GetTeam(gh, c.config.teamIds[i]).value.slug == x
  {
    var teams := GetTeamInfo(gh, c.config).value;
    var slugs := MemberSlugs(teams);
    forall k | 0 <= k < |slugs| ensures ',' !in slugs[k] {
      assert slugs[k] in slugs;
    }
    if slugs != [] {
      SplitJoin(slugs, ',');
    }
  }
}

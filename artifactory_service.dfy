/** src/artifactory/artifactory.service.ts: whether a GitHub login is a user of
    the Artifactory instance, and which configured groups it belongs to. */
module ArtifactoryService {
  import opened Wrappers
  import opened Utils
  import ConfigService

  /** The fields of an Artifactory user record that the core reads; the
      record may come without a `groups` list. */
  datatype ArtifactoryUser = ArtifactoryUser(name: string, email: string, groups: Option<seq<string>>)

  /** Why a user lookup rejected: the user does not exist (404), or any other
      failure. */
  datatype ArtifactoryError = DoesNotExistError | RequestFailed

  /** What the Artifactory API answers for each username; a username missing
      from the table does not exist. */
  type Directory = map<string, Result<ArtifactoryUser, ArtifactoryError>>

  /** One row of the group table of the profile page. */
  datatype GroupInfo = GroupInfo(name: string, isMember: bool)

  /** `getUser(username)` of the Artifactory client. */
  function GetUser(directory: Directory, username: string): Result<ArtifactoryUser, ArtifactoryError> {
    if username in directory then directory[username] else Err(DoesNotExistError)
  }

  /** `isUser(username)`: true exactly when the lookup succeeds. Every
      failure, not only a missing user, answers false; it never fails. */
  function IsUser(directory: Directory, username: string): (r: bool)
    ensures r <==> username in directory && directory[username].Ok?
  {
    match GetUser(directory, username)
    case Ok(_) => true
    case Err(_) => false
  }

  /** `baseUrl()`: the configured Artifactory base URL, unchanged. */
  function BaseUrl(config: ConfigService.Config): (r: string)
    ensures r == config.artifactoryBaseUrl
  {
    config.artifactoryBaseUrl
  }

  /** `isInGroup(username, group)`: does the user record list `group`? A
      record without a group list answers false; a failed lookup is passed
      on. */
  function IsInGroup(directory: Directory, username: string, group: string): (r: Result<bool, ArtifactoryError>)
    ensures r.Ok? <==> GetUser(directory, username).Ok?
    ensures r.Err? ==> r.error == GetUser(directory, username).error
    ensures r.Ok? ==> (r.value <==> GetUser(directory, username).value.groups.Some?
                                    && group in GetUser(directory, username).value.groups.value)
  {
    match GetUser(directory, username)
    case Err(e) => Err(e)
    case Ok(user) => Ok(user.groups.Some? && group in user.groups.value)
  }

  /** `isInGroups(username)`: for every configured group, in order, its name
      and whether the user is in it. */
  function IsInGroups(config: ConfigService.Config, directory: Directory, username: string)
    : (r: Result<seq<GroupInfo>, ArtifactoryError>)
    ensures r.Ok? <==> |config.artifactoryGroups| == 0 || GetUser(directory, username).Ok?
    ensures r.Ok? ==> |r.value| == |config.artifactoryGroups|
    ensures r.Ok? ==> forall i :: 0 <= i < |r.value| ==>
      r.value[i].name == config.artifactoryGroups[i]
      && Ok(r.value[i].isMember) == IsInGroup(directory, username, config.artifactoryGroups[i])
  {
    var groups := config.artifactoryGroups;
    var r := GetAll(groups, (group: string) => IsInGroup(directory, username, group));
    assert |groups| > 0 && r.Ok? ==> IsInGroup(directory, username, groups[0]).Ok?;
    match r
    case Err(e) => Err(e)
    case Ok(inGroups) =>
      Ok(seq(|groups|, i requires 0 <= i < |groups| => GroupInfo(groups[i], inGroups[i])))
  }

  /** The group table of a user whose record lists `memberOf` marks exactly
      the configured groups in that list. */
  lemma GroupsOfKnownUser(config: ConfigService.Config, directory: Directory, username: string, memberOf: seq<string>)
    requires GetUser(directory, username).Ok?
    requires GetUser(directory, username).value.groups == Some(memberOf)
    ensures IsInGroups(config, directory, username).Ok?
    ensures forall i :: 0 <= i < |config.artifactoryGroups| ==>
      IsInGroups(config, directory, username).value[i]
        == GroupInfo(config.artifactoryGroups[i], config.artifactoryGroups[i] in memberOf)
  {
  }

  /** A lookup that fails for every reason but a missing user makes `isUser`
      false while `isInGroups` (for a non-empty group list) fails with that
      very error. */
  lemma FailureIsNotAUserButFailsGroups(config: ConfigService.Config, directory: Directory, username: string)
    requires |config.artifactoryGroups| > 0
    requires GetUser(directory, username) == Err(RequestFailed)
    ensures !IsUser(directory, username)
    ensures IsInGroups(config, directory, username) == Err(RequestFailed)
  {
    var r := GetAll(config.artifactoryGroups, (group: string) => IsInGroup(directory, username, group));
    assert IsInGroup(directory, username, config.artifactoryGroups[0]) == Err(RequestFailed);
  }
}

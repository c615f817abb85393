/** src/github/github-source.ts: the GitHub API as seen by one request, and the
    level-by-level expansion of a team into all of its descendant teams. */
module GitHubSource {
  import opened Wrappers
  import opened Utils
  import opened ArrayOps

  /** Why a GitHub call rejected: the entity does not exist (404), or any
      other failure (network, 401/403, 5xx). */
  datatype ApiError = NotFound | RequestFailed

  /** The fields of the API records that the core reads. */
  datatype User = User(name: string, email: string, login: string)

  datatype UserOrganization = UserOrganization(login: string, id: int)

  datatype Organization = Organization(login: string, name: string, htmlUrl: string)

  datatype Team = Team(id: int, name: string, slug: string, htmlUrl: string, organizationLogin: string)

  /** What the GitHub API answers for one access token. The calls without an
      argument have one answer each; the keyed calls answer from a table, and
      a key missing from the table is a 404. `childTeams` is the direct-child
      relation of the team hierarchy, owned by GitHub.

      `rank` is not data of the source: it is a height for every team id that
      strictly decreases from a team to each of its direct children, that is,
      a witness that the hierarchy has no cycle. */
  datatype GitHub = GitHub(
    user: Result<User, ApiError>,
    userOrganizations: Result<seq<UserOrganization>, ApiError>,
    userTeams: Result<seq<Team>, ApiError>,
    organizations: map<string, Organization>,
    teams: map<int, Team>,
    childTeams: map<int, seq<Team>>,
    ghost rank: map<int, nat>)
  {
    ghost function Rank(id: int): nat {
      if id in rank then rank[id] else 0
    }

    ghost predicate Acyclic() {
      forall id, i :: id in childTeams && 0 <= i < |childTeams[id]| ==> Rank(childTeams[id][i].id) < Rank(id)
    }
  }

  /** The source walks the hierarchy with no visited set, so a reached cycle
      whose child fetches all succeed makes it run forever. The model is
      stated for child-team tables without any cycle. */
  type GitHubApi = g: GitHub | g.Acyclic()
    witness GitHub(Err(NotFound), Err(NotFound), Err(NotFound), map[], map[], map[], map[])

  // ---------------------------------------------------------------------------
  // Organizations

  /** `getOrganization(login)`. */
  function GetOrganization(gh: GitHub, login: string): Result<Organization, ApiError> {
    if login in gh.organizations then Ok(gh.organizations[login]) else Err(NotFound)
  }

  /** `getOrganizations(logins)`: one descriptor per login, in order; fails
      when any login does not resolve. */
  function GetOrganizations(gh: GitHub, logins: seq<string>): (r: Result<seq<Organization>, ApiError>)
    ensures r.Ok? <==> forall i :: 0 <= i < |logins| ==> logins[i] in gh.organizations
    ensures r.Ok? ==> |r.value| == |logins|
    ensures r.Ok? ==> forall i :: 0 <= i < |logins| ==> r.value[i] == gh.organizations[logins[i]]
  {
    GetAll(logins, login => GetOrganization(gh, login))
  }

  // ---------------------------------------------------------------------------
  // Teams

  /** The link `getTeam` writes into a fetched team. */
  function TeamUrl(organizationLogin: string, slug: string): string {
    "https://github.com/orgs/" + organizationLogin + "/teams/" + slug
  }

  /** `getTeam(id)`: the fetched record with `html_url` replaced by the team's
      page link; every other field is as fetched. */
  function GetTeam(gh: GitHub, id: int): (r: Result<Team, ApiError>)
    ensures r.Ok? <==> id in gh.teams
    ensures r.Ok? ==> r.value.htmlUrl == TeamUrl(gh.teams[id].organizationLogin, gh.teams[id].slug)
    ensures r.Ok? ==> r.value.(htmlUrl := gh.teams[id].htmlUrl) == gh.teams[id]
  {
    if id in gh.teams then
      var data := gh.teams[id];
      Ok(data.(htmlUrl := TeamUrl(data.organizationLogin, data.slug)))
    else Err(NotFound)
  }

  /** Where the first '/' of `w` is (`|w|` when there is none). */
  function IndexOfSlash(w: string): (r: nat)
    ensures r <= |w|
  {
    if w == [] || w[0] == '/' then 0 else 1 + IndexOfSlash(w[1..])
  }

  lemma {:induction false} IndexOfSlashAfter(a: string, rest: string)
    requires '/' !in a
    ensures IndexOfSlash(a + "/" + rest) == |a|
  {
    if a != [] {
      assert (a + "/" + rest)[1..] == a[1..] + "/" + rest;
      IndexOfSlashAfter(a[1..], rest);
    } else {
      assert a + "/" + rest == "/" + rest;
    }
  }

  /** The rewritten link identifies the team: organization logins cannot hold
      a '/', so two links are equal only for the same organization and slug. */
  lemma TeamUrlIdentifies(login1: string, slug1: string, login2: string, slug2: string)
    requires '/' !in login1 && '/' !in login2
    requires TeamUrl(login1, slug1) == TeamUrl(login2, slug2)
    ensures login1 == login2 && slug1 == slug2
  {
    var prefix := "https://github.com/orgs/";
    var u := TeamUrl(login1, slug1);
    assert u == prefix + (login1 + "/" + ("teams/" + slug1));
    assert u == prefix + (login2 + "/" + ("teams/" + slug2));
    var tail := u[|prefix|..];
    assert tail == login1 + "/" + ("teams/" + slug1);
    assert tail == login2 + "/" + ("teams/" + slug2);
    IndexOfSlashAfter(login1, "teams/" + slug1);
    IndexOfSlashAfter(login2, "teams/" + slug2);
    assert login1 == tail[..|login1|] == login2;
    assert slug1 == tail[|login1| + 7..] == slug2;
  }

  /** `getTeams(ids)`: one descriptor per id, in order; fails when any id does
      not resolve. */
  function GetTeams(gh: GitHub, ids: seq<int>): (r: Result<seq<Team>, ApiError>)
    ensures r.Ok? <==> forall i :: 0 <= i < |ids| ==> ids[i] in gh.teams
    ensures r.Ok? ==> |r.value| == |ids|
    ensures r.Ok? ==> forall i :: 0 <= i < |ids| ==> r.value[i] == GetTeam(gh, ids[i]).value
  {
    GetAll(ids, id => GetTeam(gh, id))
  }

  /** `getChildTeams(id)`: the direct children only. */
  function GetChildTeams(gh: GitHub, id: int): Result<seq<Team>, ApiError> {
    if id in gh.childTeams then Ok(gh.childTeams[id]) else Err(NotFound)
  }

  // ---------------------------------------------------------------------------
  // Ranks, the termination measure of the expansion

  ghost function MaxRank(gh: GitHub, teams: seq<Team>): nat {
    if teams == [] then 0
    else
      var rest := MaxRank(gh, teams[1..]);
      if gh.Rank(teams[0].id) < rest then rest else gh.Rank(teams[0].id)
  }

  lemma {:induction false} MaxRankAtLeast(gh: GitHub, teams: seq<Team>, i: int)
    requires 0 <= i < |teams|
    ensures gh.Rank(teams[i].id) <= MaxRank(gh, teams)
  {
    if i > 0 {
      MaxRankAtLeast(gh, teams[1..], i - 1);
    }
  }

  lemma {:induction false} MaxRankAtMost(gh: GitHub, teams: seq<Team>, bound: nat)
    requires forall i :: 0 <= i < |teams| ==> gh.Rank(teams[i].id) <= bound
    ensures MaxRank(gh, teams) <= bound
  {
    if teams != [] {
      MaxRankAtMost(gh, teams[1..], bound);
    }
  }

  /** The direct children of `t` that the table knows, `[]` otherwise. */
  function Kids(gh: GitHub, t: Team): seq<Team> {
    if t.id in gh.childTeams then gh.childTeams[t.id] else []
  }

  lemma KidsRankBelow(gh: GitHubApi, t: Team)
    ensures Kids(gh, t) != [] ==> MaxRank(gh, Kids(gh, t)) < gh.Rank(t.id)
  {
    var kids := Kids(gh, t);
    if kids != [] {
      assert gh.Rank(kids[0].id) < gh.Rank(t.id);
      MaxRankAtMost(gh, kids, gh.Rank(t.id) - 1);
    }
  }

  /** The children fetched for `teams`, one list per team, in order. */
  function AllKids(gh: GitHub, teams: seq<Team>): seq<Team> {
    if teams == [] then [] else Kids(gh, teams[0]) + AllKids(gh, teams[1..])
  }

  /** When every child list was fetched, their concatenation is AllKids. */
  lemma {:induction false} FlattenFetchedKids(gh: GitHub, teams: seq<Team>, lists: seq<seq<Team>>)
    requires |lists| == |teams|
    requires forall i :: 0 <= i < |teams| ==> lists[i] == Kids(gh, teams[i])
    ensures Flatten(lists) == AllKids(gh, teams)
  {
    if teams != [] {
      FlattenFetchedKids(gh, teams[1..], lists[1..]);
    }
  }

  lemma AllKidsRankBelow(gh: GitHubApi, teams: seq<Team>)
    ensures AllKids(gh, teams) != [] ==> MaxRank(gh, AllKids(gh, teams)) < MaxRank(gh, teams)
  {
    var kids := AllKids(gh, teams);
    if kids != [] {
      forall j | 0 <= j < |kids| ensures gh.Rank(kids[j].id) < MaxRank(gh, teams) {
        var i := KidsParent(gh, teams, kids[j]);
        var k :| 0 <= k < |Kids(gh, teams[i])| && Kids(gh, teams[i])[k] == kids[j];
        MaxRankAtLeast(gh, teams, i);
      }
      MaxRankAtLeast(gh, kids, 0);
      MaxRankAtMost(gh, kids, MaxRank(gh, teams) - 1);
    }
  }

  /** Every fetched child has a parent among `teams`. */
  lemma {:induction false} KidsParent(gh: GitHub, teams: seq<Team>, x: Team) returns (i: int)
    requires x in AllKids(gh, teams)
    ensures 0 <= i < |teams| && x in Kids(gh, teams[i])
  {
    if x in Kids(gh, teams[0]) {
      i := 0;
    } else {
      i := KidsParent(gh, teams[1..], x);
      i := i + 1;
    }
  }

  // ---------------------------------------------------------------------------
  // The descendant closure

  /** `getChildTeamsRecursively(teams)`: fetch the direct children of every
      team (one batch), flatten them in order, and if there are any, return
      `teams` followed by the expansion of those children; otherwise return
      `teams`. No team is deduplicated, and any failed fetch fails the whole
      expansion. */
  function ChildTeamsRecursively(gh: GitHubApi, teams: seq<Team>): (r: Result<seq<Team>, ApiError>)
    ensures r.Ok? ==> |teams| <= |r.value| && r.value[..|teams|] == teams
    ensures (exists i :: 0 <= i < |teams| && teams[i].id !in gh.childTeams) ==> r.Err?
    decreases MaxRank(gh, teams)
  {
    match GetAll(teams, (t: Team) => GetChildTeams(gh, t.id))
    case Err(e) => Err(e)
    case Ok(childTeams) =>
      var flatChildTeams := Flatten(childTeams);
      if |flatChildTeams| > 0 then
        FlattenFetchedKids(gh, teams, childTeams);
        AllKidsRankBelow(gh, teams);
        match ChildTeamsRecursively(gh, flatChildTeams)
        case Err(e) => Err(e)
        case Ok(descendants) => Ok(teams + descendants)
      else Ok(teams)
  }

  /** `getAllChildTeams(id)`: fetch the team, then expand it. The first
      element is the fetched team itself. */
  function GetAllChildTeams(gh: GitHubApi, id: int): (r: Result<seq<Team>, ApiError>)
    ensures r.Ok? ==> id in gh.teams && |r.value| > 0 && r.value[0] == GetTeam(gh, id).value
    ensures id !in gh.teams ==> r == Err(NotFound)
  {
    match GetTeam(gh, id)
    case Err(e) => Err(e)
    case Ok(team) => ChildTeamsRecursively(gh, [team])
  }

  /** Teams without children expand to themselves. */
  lemma LeavesExpandToThemselves(gh: GitHubApi, teams: seq<Team>)
    requires forall i :: 0 <= i < |teams| ==> teams[i].id in gh.childTeams && gh.childTeams[teams[i].id] == []
    ensures ChildTeamsRecursively(gh, teams) == Ok(teams)
  {
    var r := GetAll(teams, (t: Team) => GetChildTeams(gh, t.id));
    assert r.Ok?;
    FlattenFetchedKids(gh, teams, r.value);
    if AllKids(gh, teams) != [] {
      var i := KidsParent(gh, teams, AllKids(gh, teams)[0]);
      assert false;
    }
  }

  /** With children, the expansion is the input followed by the expansion of
      all direct children, concatenated in input order. */
  lemma ExpansionUnfolds(gh: GitHubApi, teams: seq<Team>)
    requires forall i :: 0 <= i < |teams| ==> teams[i].id in gh.childTeams
    requires AllKids(gh, teams) != []
    ensures ChildTeamsRecursively(gh, AllKids(gh, teams)).Err? ==>
      ChildTeamsRecursively(gh, teams) == Err(ChildTeamsRecursively(gh, AllKids(gh, teams)).error)
    ensures ChildTeamsRecursively(gh, AllKids(gh, teams)).Ok? ==>
      ChildTeamsRecursively(gh, teams) == Ok(teams + ChildTeamsRecursively(gh, AllKids(gh, teams)).value)
  {
    var r := GetAll(teams, (t: Team) => GetChildTeams(gh, t.id));
    FlattenFetchedKids(gh, teams, r.value);
  }

  // ---------------------------------------------------------------------------
  // A reference definition: the depth-first walk of the hierarchy

  /** Every team of `teams` followed, depth first, by its descendants; a team
      reachable along several paths is listed once per path. */
  ghost function Forest(gh: GitHubApi, teams: seq<Team>): seq<Team>
    decreases MaxRank(gh, teams), |teams|
  {
    if teams == [] then []
    else
      KidsRankBelow(gh, teams[0]);
      MaxRankAtLeast(gh, teams, 0);
      [teams[0]] + Forest(gh, Kids(gh, teams[0])) + Forest(gh, teams[1..])
  }

  /** One step of the walk: a team, then the walk of its children, then the
      walk of the teams after it. */
  lemma ForestCons(gh: GitHubApi, teams: seq<Team>)
    requires teams != []
    ensures Forest(gh, teams) == [teams[0]] + Forest(gh, Kids(gh, teams[0])) + Forest(gh, teams[1..])
  {
  }

  lemma {:induction false} ForestAppend(gh: GitHubApi, a: seq<Team>, b: seq<Team>)
    ensures Forest(gh, a + b) == Forest(gh, a) + Forest(gh, b)
    decreases |a|
  {
    if a != [] {
      assert (a + b)[0] == a[0];
      assert (a + b)[1..] == a[1..] + b;
      ForestAppend(gh, a[1..], b);
    } else {
      assert a + b == b;
    }
  }

  /** Multiset bookkeeping for one step of ForestSplit. */
  lemma Regroup(t: Team, own: seq<Team>, restForest: seq<Team>, rest: seq<Team>, others: seq<Team>)
    requires multiset(restForest) == multiset(rest) + multiset(others)
    ensures multiset([t] + own + restForest) == multiset([t] + rest) + multiset(own + others)
  {
  }

  /** The walk holds the teams themselves plus the walk of all their children. */
  lemma {:induction false} ForestSplit(gh: GitHubApi, teams: seq<Team>)
    ensures multiset(Forest(gh, teams)) == multiset(teams) + multiset(Forest(gh, AllKids(gh, teams)))
    decreases |teams|
  {
    if teams != [] {
      var t, rest := teams[0], teams[1..];
      var own, others := Forest(gh, Kids(gh, t)), Forest(gh, AllKids(gh, rest));
      ForestSplit(gh, rest);
      ForestAppend(gh, Kids(gh, t), AllKids(gh, rest));
      Regroup(t, own, Forest(gh, rest), rest, others);
      ForestCons(gh, teams);
      assert AllKids(gh, teams) == Kids(gh, t) + AllKids(gh, rest);
      assert teams == [t] + rest;
    }
  }

  /** The level-by-level expansion lists exactly the teams of the depth-first
      walk, each as often: the same teams, the same duplicates, in another
      order. */
  lemma {:induction false} ExpansionIsForest(gh: GitHubApi, teams: seq<Team>)
    requires ChildTeamsRecursively(gh, teams).Ok?
    ensures multiset(ChildTeamsRecursively(gh, teams).value) == multiset(Forest(gh, teams))
    decreases MaxRank(gh, teams)
  {
    var fetched := GetAll(teams, (t: Team) => GetChildTeams(gh, t.id));
    FlattenFetchedKids(gh, teams, fetched.value);
    ForestSplit(gh, teams);
    var kids := AllKids(gh, teams);
    if kids != [] {
      AllKidsRankBelow(gh, teams);
      ExpansionIsForest(gh, kids);
    }
  }

  /** `path` runs from a team through direct-child edges. */
  ghost predicate IsChildPath(gh: GitHub, path: seq<Team>) {
    |path| > 0 && forall i :: 0 <= i < |path| - 1 ==> path[i + 1] in Kids(gh, path[i])
  }

  ghost predicate Reaches(gh: GitHub, from: Team, to: Team) {
    exists path :: IsChildPath(gh, path) && path[0] == from && path[|path| - 1] == to
  }

  /** Dropping the first team of a path leaves a path. */
  lemma TailIsChildPath(gh: GitHub, path: seq<Team>)
    requires IsChildPath(gh, path) && |path| > 1
    ensures IsChildPath(gh, path[1..])
  {
    var tail := path[1..];
    forall i | 0 <= i < |tail| - 1 ensures tail[i + 1] in Kids(gh, tail[i]) {
      assert tail[i + 1] == path[i + 2] && tail[i] == path[i + 1];
    }
  }

  /** The walk of a list holds the walk of each of its teams. */
  lemma ForestOfMember(gh: GitHubApi, teams: seq<Team>, k: int, x: Team)
    requires 0 <= k < |teams| && x in Forest(gh, [teams[k]])
    ensures x in Forest(gh, teams)
  {
    var pre, mid, post := teams[..k], [teams[k]], teams[k + 1..];
    assert teams == pre + mid + post;
    ForestOfMiddle(gh, pre, mid, post, x);
  }

  lemma {:induction false} ForestFromReach(gh: GitHubApi, path: seq<Team>)
    requires IsChildPath(gh, path)
    ensures path[|path| - 1] in Forest(gh, [path[0]])
    decreases |path|
  {
    var t, x := path[0], path[|path| - 1];
    assert Forest(gh, [t]) == [t] + Forest(gh, Kids(gh, t)) + Forest(gh, []);
    if |path| > 1 {
      TailIsChildPath(gh, path);
      ForestFromReach(gh, path[1..]);
      var kids := Kids(gh, t);
      var k :| 0 <= k < |kids| && kids[k] == path[1];
      ForestOfMember(gh, kids, k, x);
    }
  }

  /** A path from a child of `t` extends to a path from `t`. */
  lemma PrependEdge(gh: GitHub, t: Team, path: seq<Team>)
    requires IsChildPath(gh, path) && path[0] in Kids(gh, t)
    ensures IsChildPath(gh, [t] + path) && Reaches(gh, t, path[|path| - 1])
  {
    var longer := [t] + path;
    forall k | 0 <= k < |longer| - 1 ensures longer[k + 1] in Kids(gh, longer[k]) {
      if k > 0 {
        assert longer[k + 1] == path[k] && longer[k] == path[k - 1];
      }
    }
    assert longer[0] == t && longer[|longer| - 1] == path[|path| - 1];
  }

  lemma {:induction false} ReachFromForest(gh: GitHubApi, teams: seq<Team>, x: Team) returns (i: int)
    requires x in Forest(gh, teams)
    ensures 0 <= i < |teams| && Reaches(gh, teams[i], x)
    decreases MaxRank(gh, teams), |teams|
  {
    var t := teams[0];
    KidsRankBelow(gh, t);
    MaxRankAtLeast(gh, teams, 0);
    assert Forest(gh, teams) == [t] + Forest(gh, Kids(gh, t)) + Forest(gh, teams[1..]);
    if x == t {
      i := 0;
      assert IsChildPath(gh, [t]);
    } else if x in Forest(gh, Kids(gh, t)) {
      var j := ReachFromForest(gh, Kids(gh, t), x);
      var path :| IsChildPath(gh, path) && path[0] == Kids(gh, t)[j] && path[|path| - 1] == x;
      PrependEdge(gh, t, path);
      i := 0;
    } else {
      i := ReachFromForest(gh, teams[1..], x);
      i := i + 1;
    }
  }

  /** The walk of a list holds the walk of any of its slices. */
  lemma ForestOfMiddle(gh: GitHubApi, pre: seq<Team>, mid: seq<Team>, post: seq<Team>, x: Team)
    requires x in Forest(gh, mid)
    ensures x in Forest(gh, pre + mid + post)
  {
    ForestAppend(gh, pre + mid, post);
    ForestAppend(gh, pre, mid);
  }

  lemma ReachedIsInForestOfOne(gh: GitHubApi, from: Team, x: Team)
    requires Reaches(gh, from, x)
    ensures x in Forest(gh, [from])
  {
    var path :| IsChildPath(gh, path) && path[0] == from && path[|path| - 1] == x;
    ForestFromReach(gh, path);
  }

  lemma ReachedIsInForest(gh: GitHubApi, teams: seq<Team>, i: int, x: Team)
    requires 0 <= i < |teams| && Reaches(gh, teams[i], x)
    ensures x in Forest(gh, teams)
  {
    ReachedIsInForestOfOne(gh, teams[i], x);
    ForestOfMember(gh, teams, i, x);
  }

  /** A team is in the depth-first walk exactly when it is reachable from one
      of the starting teams along direct-child edges (a team reaches itself). */
  lemma ForestIsReachable(gh: GitHubApi, teams: seq<Team>, x: Team)
    ensures x in Forest(gh, teams) <==> exists i :: 0 <= i < |teams| && Reaches(gh, teams[i], x)
  {
    if x in Forest(gh, teams) {
      var i := ReachFromForest(gh, teams, x);
    }
    if i :| 0 <= i < |teams| && Reaches(gh, teams[i], x) {
      ReachedIsInForest(gh, teams, i, x);
    }
  }

  /** A team is in the expansion of `teams` exactly when it is one of them or
      reachable from one of them along direct-child edges. */
  lemma ExpansionIsReachable(gh: GitHubApi, teams: seq<Team>, x: Team)
    requires ChildTeamsRecursively(gh, teams).Ok?
    ensures x in ChildTeamsRecursively(gh, teams).value <==> exists i :: 0 <= i < |teams| && Reaches(gh, teams[i], x)
  {
    ExpansionIsForest(gh, teams);
    assert x in ChildTeamsRecursively(gh, teams).value <==> x in multiset(ChildTeamsRecursively(gh, teams).value);
    assert x in Forest(gh, teams) <==> x in multiset(Forest(gh, teams));
    ForestIsReachable(gh, teams, x);
  }
}

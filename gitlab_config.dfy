/** The selection logic of `GitlabConfig`: which projects and groups a run
    works on, which branches of each project are active or stale, and the
    fixed order in which `update_settings` runs the reconciliation sections.

    Every listing is read through `response_json`, so a read that is not ok
    stops the selection with the "undesired response" error. */
module GitlabConfig {
  import opened Types
  import opened Strings
  import opened PrinterUtils
  import opened ArgsParser
  import opened Const
  import opened GlobalUtils
  import PS = ProjectSettings

  /** An entry of the project listing, or the answer to a single-project
      lookup; the id is carried as its decimal text. */
  datatype ProjectEntry = ProjectEntry(id: ProjectId, pathWithNamespace: string)

  /** An entry of the group listing. */
  datatype GroupEntry = GroupEntry(id: int, path: string)

  /** An entry of a project's branch listing, with the creation time of its
      last commit in seconds since the epoch. */
  datatype BranchEntry = BranchEntry(name: string, commitCreatedAt: int)

  // ---------------------------------------------------------------------
  // Projects and groups

  /** The namespace of a fully qualified project path: the part before the
      first `/`, or the whole path when it has none. */
  function Namespace(pathWithNamespace: string): (ns: string)
    ensures ns <= pathWithNamespace && '/' !in ns
    ensures |ns| < |pathWithNamespace| ==> pathWithNamespace[|ns|] == '/'
    ensures '/' !in pathWithNamespace ==> ns == pathWithNamespace
  {
    SplitHead(pathWithNamespace, '/');
    Split(pathWithNamespace, '/')[0]
  }

  /** The ids of the listed projects whose namespace is one of
      `namespacePaths`, in listing order. */
  function NamespaceProjectIds(entries: seq<ProjectEntry>, namespacePaths: seq<string>): (ids: seq<ProjectId>)
    ensures |ids| <= |entries|
    ensures forall x :: x in ids <==>
      exists e :: e in entries && Namespace(e.pathWithNamespace) in namespacePaths && e.id == x
    decreases |entries|
  {
    if entries == [] then []
    else
      var e := entries[0];
      assert entries == [e] + entries[1..];
      (if Namespace(e.pathWithNamespace) in namespacePaths then [e.id] else [])
        + NamespaceProjectIds(entries[1..], namespacePaths)
  }

  /** Listing order is kept: the ids for two consecutive stretches of the
      listing are the ids of the first stretch followed by those of the
      second. */
  lemma {:induction false} NamespaceProjectIdsAppend(a: seq<ProjectEntry>, b: seq<ProjectEntry>, namespacePaths: seq<string>)
    ensures NamespaceProjectIds(a + b, namespacePaths) ==
      NamespaceProjectIds(a, namespacePaths) + NamespaceProjectIds(b, namespacePaths)
    decreases |a|
  {
    if a == [] {
      assert a + b == b;
    } else {
      assert (a + b)[0] == a[0];
      assert (a + b)[1..] == a[1..] + b;
      NamespaceProjectIdsAppend(a[1..], b, namespacePaths);
    }
  }

  /** The ids of the listed groups whose path is one of `namespacePaths`,
      in listing order. */
  function NamedGroupIds(groups: seq<GroupEntry>, namespacePaths: seq<string>): (ids: seq<int>)
    ensures |ids| <= |groups|
    ensures forall x :: x in ids <==> exists g :: g in groups && g.path in namespacePaths && g.id == x
    decreases |groups|
  {
    if groups == [] then []
    else
      var g := groups[0];
      assert groups == [g] + groups[1..];
      (if g.path in namespacePaths then [g.id] else []) + NamedGroupIds(groups[1..], namespacePaths)
  }

  /** Listing order is kept for groups as for projects. */
  lemma {:induction false} NamedGroupIdsAppend(a: seq<GroupEntry>, b: seq<GroupEntry>, namespacePaths: seq<string>)
    ensures NamedGroupIds(a + b, namespacePaths) == NamedGroupIds(a, namespacePaths) + NamedGroupIds(b, namespacePaths)
    decreases |a|
  {
    if a == [] {
      assert a + b == b;
    } else {
      assert (a + b)[0] == a[0];
      assert (a + b)[1..] == a[1..] + b;
      NamedGroupIdsAppend(a[1..], b, namespacePaths);
    }
  }

  /** The lookup path of project `slug` of namespace `namespace`. */
  function SlugPath(namespace: string, slug: string): string
  {
    "projects/" + namespace + "/" + slug
  }

  /** The URL `response_json` requests for a slug lookup in the first
      listed namespace. */
  function SlugUrl(args: Args, slug: string): string
    requires args.namespacePaths != []
  {
    args.baseUrl + "/" + SlugPath(args.namespacePaths[0], slug) + PageQuery
  }

  /** The URL `response_json` requests for a listing at `path`. */
  function ListingUrl(baseUrl: string, path: string): string
  {
    baseUrl + "/" + path + PageQuery
  }

  /** `select_project_ids`: slugs win over namespaces, which win over
      explicit ids; nothing selected gives no projects.
      - With slugs, each slug is looked up in the first namespace in turn
        and its id taken, in slug order; the first lookup that is not ok
        stops the selection with its error.
      - With namespaces, the listing's projects of those namespaces, in
        listing order.
      - With explicit ids, the ids as given.
      The argument guards make sure slugs always come with a namespace. */
  method SelectProjectIds(args: Args, lookup: string -> Response<ProjectEntry>,
                          listing: string -> Response<seq<ProjectEntry>>)
    returns (r: Result<seq<ProjectId>>)
    requires args.projectSlugs != [] ==> args.namespacePaths != []
    ensures args.projectSlugs != [] ==>
      (r.Ok? <==> forall i :: 0 <= i < |args.projectSlugs| ==> IsOk(lookup(SlugUrl(args, args.projectSlugs[i])).status))
    ensures args.projectSlugs != [] && r.Ok? ==>
      |r.value| == |args.projectSlugs|
      && forall i :: 0 <= i < |args.projectSlugs| ==> r.value[i] == lookup(SlugUrl(args, args.projectSlugs[i])).body.id
    ensures args.projectSlugs != [] && r.Err? ==>
      exists k :: 0 <= k < |args.projectSlugs|
        && (forall i :: 0 <= i < k ==> IsOk(lookup(SlugUrl(args, args.projectSlugs[i])).status))
        && var url := SlugUrl(args, args.projectSlugs[k]);
           !IsOk(lookup(url).status) && r.error == UndesiredResponse(lookup(url).status, url)
    ensures args.projectSlugs == [] && args.namespacePaths != [] ==>
      var response := listing(ListingUrl(args.baseUrl, "projects"));
      && (r.Ok? <==> IsOk(response.status))
      && (r.Ok? ==> r.value == NamespaceProjectIds(response.body, args.namespacePaths))
      && (r.Err? ==> r.error == UndesiredResponse(response.status, ListingUrl(args.baseUrl, "projects")))
    ensures args.projectSlugs == [] && args.namespacePaths == [] ==> r == Ok(args.projectIds)
  {
    var slugs := args.projectSlugs;
    if |slugs| > 0 {
      var result: seq<ProjectId> := [];
      for i := 0 to |slugs|
        invariant |result| == i
        invariant forall j :: 0 <= j < i ==>
          IsOk(lookup(SlugUrl(args, slugs[j])).status) && result[j] == lookup(SlugUrl(args, slugs[j])).body.id
      {
        var entry := ResponseJson(args.baseUrl, SlugPath(args.namespacePaths[0], slugs[i]), lookup);
        if entry.Err? {
          return Err(entry.error);
        }
        result := result + [entry.value.id];
      }
      return Ok(result);
    } else if |args.namespacePaths| > 0 {
      var projects := ResponseJson(args.baseUrl, "projects", listing);
      if projects.Err? {
        return Err(projects.error);
      }
      return Ok(NamespaceProjectIds(projects.value, args.namespacePaths));
    } else if |args.projectIds| > 0 {
      return Ok(args.projectIds);
    }
    return Ok([]);
  }

  /** `select_group_ids`: the ids of the listed groups named in
      `namespace_paths`, in listing order, or the listing's error. */
  function SelectGroupIds(args: Args, listing: string -> Response<seq<GroupEntry>>): (r: Result<seq<int>>)
    ensures var response := listing(ListingUrl(args.baseUrl, "groups"));
      && (r.Ok? <==> IsOk(response.status))
      && (r.Ok? ==> forall x :: x in r.value <==>
            exists g :: g in response.body && g.path in args.namespacePaths && g.id == x)
      && (r.Err? ==> r.error == UndesiredResponse(response.status, ListingUrl(args.baseUrl, "groups")))
      && (r.Ok? ==> r.value == NamedGroupIds(response.body, args.namespacePaths))
  {
    var groups := ResponseJson(args.baseUrl, "groups", listing);
    if groups.Err? then Err(groups.error) else Ok(NamedGroupIds(groups.value, args.namespacePaths))
  }

  // ---------------------------------------------------------------------
  // Branches

  const SecondsPerDay: int := 86400

  /** The branches `select_branch_names` never reports as stale. */
  const ExcludeBranches: string := "dev,main"

  /** `__is_stale_branch`: a branch is stale when the moment `previousDays`
      days before `now` is strictly later than its last commit, and its
      name is not one of the comma-separated excluded names. */
  predicate IsStaleBranch(entry: BranchEntry, now: int, previousDays: int, excludeBranches: string)
  {
    now - previousDays * SecondsPerDay > entry.commitCreatedAt
    && entry.name !in Split(excludeBranches, ',')
  }

  /** `__is_stale_branch` with its defaults: 90 days, `dev` and `main` excluded. */
  predicate Stale(entry: BranchEntry, now: int)
  {
    IsStaleBranch(entry, now, StaleBranchDelta, ExcludeBranches)
  }

  /** The excluded names of the default are `dev` and `main`. */
  lemma ExcludedDefaults()
    ensures Split(ExcludeBranches, ',') == ["dev", "main"]
  {
    SplitHead("main", ',');
    var rest := Split(",main", ',');
    assert ",main"[1..] == "main";
    assert rest == [""] + ["main"];
    assert "dev" + ",main" == ExcludeBranches;
    SplitPrefix("dev", ",main", ',');
    assert "dev" + rest[0] == "dev";
  }

  /** A branch is stale exactly when its last commit is more than 90 days
      before `now` and it is neither `dev` nor `main`; so `dev` and `main`
      are never stale. */
  lemma StaleIff(entry: BranchEntry, now: int)
    ensures Stale(entry, now) <==>
      now - 90 * 86400 > entry.commitCreatedAt && entry.name != "dev" && entry.name != "main"
    ensures entry.name == "dev" || entry.name == "main" ==> !Stale(entry, now)
  {
    ExcludedDefaults();
  }

  /** Staleness only grows with time: a branch stale at `now` is stale at
      any later moment, and a longer window never makes more branches stale. */
  lemma StaleMonotone(entry: BranchEntry, now: int, later: int, previousDays: int, moreDays: int, excludeBranches: string)
    requires now <= later && previousDays <= moreDays
    ensures IsStaleBranch(entry, now, previousDays, excludeBranches) ==> IsStaleBranch(entry, later, previousDays, excludeBranches)
    ensures IsStaleBranch(entry, now, moreDays, excludeBranches) ==> IsStaleBranch(entry, now, previousDays, excludeBranches)
  {
  }

  /** The names of the branches that are active (not stale) when `active`
      holds, or stale when it does not, in listing order. */
  function BranchNames(entries: seq<BranchEntry>, active: bool, now: int): (names: seq<string>)
    ensures |names| <= |entries|
    ensures forall x :: x in names <==> exists e :: e in entries && Stale(e, now) != active && e.name == x
    decreases |entries|
  {
    if entries == [] then []
    else
      var e := entries[0];
      assert entries == [e] + entries[1..];
      (if Stale(e, now) != active then [e.name] else []) + BranchNames(entries[1..], active, now)
  }

  /** The names of all listed branches, in listing order. */
  function AllNames(entries: seq<BranchEntry>): (names: seq<string>)
    ensures |names| == |entries| && forall i :: 0 <= i < |entries| ==> names[i] == entries[i].name
  {
    seq(|entries|, i requires 0 <= i < |entries| => entries[i].name)
  }

  /** The active and the stale names partition the listing: together they
      hold every listed name exactly as often as the listing does. */
  lemma {:induction false} BranchNamesPartition(entries: seq<BranchEntry>, now: int)
    ensures multiset(BranchNames(entries, true, now)) + multiset(BranchNames(entries, false, now))
      == multiset(AllNames(entries))
    decreases |entries|
  {
    if entries != [] {
      BranchNamesPartition(entries[1..], now);
      assert AllNames(entries) == [entries[0].name] + AllNames(entries[1..]);
    }
  }

  /** Listing order is kept: the names for two consecutive stretches of the
      listing are those of the first stretch followed by those of the second. */
  lemma {:induction false} BranchNamesAppend(a: seq<BranchEntry>, b: seq<BranchEntry>, active: bool, now: int)
    ensures BranchNames(a + b, active, now) == BranchNames(a, active, now) + BranchNames(b, active, now)
    decreases |a|
  {
    if a == [] {
      assert a + b == b;
    } else {
      assert (a + b)[0] == a[0];
      assert (a + b)[1..] == a[1..] + b;
      BranchNamesAppend(a[1..], b, active, now);
    }
  }

  /** The path of a project's branch listing. */
  function BranchesPath(p: ProjectId): string
  {
    "projects/" + p + "/repository/branches"
  }

  /** `select_branch_names`: for each project in turn, its branch listing
      filtered to the active (or the stale) names, filed under the project's
      id; the first listing that is not ok stops it with its error. */
  method SelectBranchNames(args: Args, pids: seq<ProjectId>, active: bool, now: int,
                           listing: string -> Response<seq<BranchEntry>>)
    returns (r: Result<map<ProjectId, seq<string>>>)
    ensures r.Ok? <==> forall i :: 0 <= i < |pids| ==> IsOk(listing(ListingUrl(args.baseUrl, BranchesPath(pids[i]))).status)
    ensures r.Ok? ==> forall p :: p in r.value <==> p in pids
    ensures r.Ok? ==> forall p :: p in r.value ==>
      r.value[p] == BranchNames(listing(ListingUrl(args.baseUrl, BranchesPath(p))).body, active, now)
    ensures r.Err? ==>
      exists k :: 0 <= k < |pids|
        && (forall i :: 0 <= i < k ==> IsOk(listing(ListingUrl(args.baseUrl, BranchesPath(pids[i]))).status))
        && var url := ListingUrl(args.baseUrl, BranchesPath(pids[k]));
           !IsOk(listing(url).status) && r.error == UndesiredResponse(listing(url).status, url)
  {
    var response: map<ProjectId, seq<string>> := map[];
    for i := 0 to |pids|
      invariant forall p :: p in response <==> p in pids[..i]
      invariant forall j :: 0 <= j < i ==> IsOk(listing(ListingUrl(args.baseUrl, BranchesPath(pids[j]))).status)
      invariant forall p :: p in response ==>
        response[p] == BranchNames(listing(ListingUrl(args.baseUrl, BranchesPath(p))).body, active, now)
    {
      var projectId := pids[i];
      var branches := ResponseJson(args.baseUrl, BranchesPath(projectId), listing);
      if branches.Err? {
        return Err(branches.error);
      }
      var result := BranchNames(branches.value, active, now);
      assert pids[..i + 1] == pids[..i] + [projectId];
      response := response[projectId := result];
    }
    assert pids[..|pids|] == pids;
    return Ok(response);
  }

  // ---------------------------------------------------------------------
  // The order of the sections

  /** `update_settings` on the writes so far: approval settings, approval
      rules, project settings, then protected branches, each over all
      projects, stopping at the first failure; also the shared approval-rule
      payload it leaves. */
  function SettingsRun(m: PS.Machine, args: Args, payload: map<string, Json>, pids: seq<ProjectId>,
                       remote: PS.Remote, respond: PS.Responder): (PS.Machine, Outcome, map<string, Json>)
  {
    var r1 := PS.Run(m, PS.Plan(PS.ApprovalSettingsSection(args.approvalSettings), pids), respond);
    if r1.1.Fail? then (r1.0, r1.1, payload)
    else
      var r2 := PS.RulesRun(r1.0, pids, remote, payload, respond);
      if r2.1.Fail? then r2
      else
        var r3 := PS.Run(r2.0, PS.Plan(PS.ProjectSettingsSection(args.projectSettings), pids), respond);
        if r3.1.Fail? then (r3.0, r3.1, r2.2)
        else
          var r4 := PS.Run(r3.0, PS.Plan(PS.ProtectedBranchesSection(remote, args.protectedBranches), pids), respond);
          (r4.0, r4.1, r2.2)
  }

  /** A run that succeeds issues every write of its plan, in plan order. */
  lemma {:induction false} RunPassLog(m: PS.Machine, steps: seq<PS.Step>, respond: PS.Responder)
    ensures PS.Run(m, steps, respond).1.Pass? ==> PS.Run(m, steps, respond).0.log == m.log + PS.ActionsOf(steps)
    decreases |steps|
  {
    if steps != [] {
      var r := PS.Perform(m, steps[0], respond);
      if r.1.Pass? {
        RunPassLog(r.0, steps[1..], respond);
      }
    }
  }

  /** When every section succeeds, the writes are all of the approval
      settings, then all of the approval rules, then all of the project
      settings, then all of the branch protections. */
  lemma SettingsRunOrder(m: PS.Machine, args: Args, payload: map<string, Json>, pids: seq<ProjectId>,
                         remote: PS.Remote, respond: PS.Responder)
    ensures var r := SettingsRun(m, args, payload, pids, remote, respond);
      r.1.Pass? ==>
        r.0.log == m.log
          + PS.ActionsOf(PS.Plan(PS.ApprovalSettingsSection(args.approvalSettings), pids))
          + PS.ActionsOf(PS.RulesPlan(pids, remote, payload))
          + PS.ActionsOf(PS.Plan(PS.ProjectSettingsSection(args.projectSettings), pids))
          + PS.ActionsOf(PS.Plan(PS.ProtectedBranchesSection(remote, args.protectedBranches), pids))
  {
    var p1 := PS.Plan(PS.ApprovalSettingsSection(args.approvalSettings), pids);
    var r1 := PS.Run(m, p1, respond);
    RunPassLog(m, p1, respond);
    if r1.1.Pass? {
      var r2 := PS.RulesRun(r1.0, pids, remote, payload, respond);
      PS.RulesRunPlan(r1.0, pids, remote, payload, respond);
      RunPassLog(r1.0, PS.RulesPlan(pids, remote, payload), respond);
      if r2.1.Pass? {
        var p3 := PS.Plan(PS.ProjectSettingsSection(args.projectSettings), pids);
        var r3 := PS.Run(r2.0, p3, respond);
        RunPassLog(r2.0, p3, respond);
        if r3.1.Pass? {
          RunPassLog(r3.0, PS.Plan(PS.ProtectedBranchesSection(remote, args.protectedBranches), pids), respond);
        }
      }
    }
  }

  /** The four sections behave as one plan, theirs concatenated in order,
      run until its first failure: so a section that fails leaves no write
      of any later section in the log, and a later section starts only when
      every earlier one succeeded. */
  lemma SettingsRunIsOneRun(m: PS.Machine, args: Args, payload: map<string, Json>, pids: seq<ProjectId>,
                            remote: PS.Remote, respond: PS.Responder)
    ensures var r := SettingsRun(m, args, payload, pids, remote, respond);
      (r.0, r.1) == PS.Run(m,
          PS.Plan(PS.ApprovalSettingsSection(args.approvalSettings), pids)
          + PS.RulesPlan(pids, remote, payload)
          + PS.Plan(PS.ProjectSettingsSection(args.projectSettings), pids)
          + PS.Plan(PS.ProtectedBranchesSection(remote, args.protectedBranches), pids), respond)
  {
    var p1 := PS.Plan(PS.ApprovalSettingsSection(args.approvalSettings), pids);
    var p2 := PS.RulesPlan(pids, remote, payload);
    var p3 := PS.Plan(PS.ProjectSettingsSection(args.projectSettings), pids);
    var p4 := PS.Plan(PS.ProtectedBranchesSection(remote, args.protectedBranches), pids);
    PS.RunAppend(m, p1 + p2 + p3, p4, respond);
    PS.RunAppend(m, p1 + p2, p3, respond);
    PS.RunAppend(m, p1, p2, respond);
    var r1 := PS.Run(m, p1, respond);
    if r1.1.Pass? {
      PS.RulesRunPlan(r1.0, pids, remote, payload, respond);
    }
  }

  /** `GitlabConfig`: the configuration and the `ProjectSettings` object
      that reconciles it. */
  class GitlabConfig {
    const args: Args
    const defaultBranch: string
    const ps: PS.ProjectSettings

    ghost predicate Valid()
      reads this, ps, ps.printer
    {
      ps.Valid() && ps.args == args
    }

    constructor (args: Args, defaultBranch: string)
      ensures Valid() && fresh(ps) && fresh(ps.printer)
      ensures this.args == args && this.defaultBranch == defaultBranch
      ensures ps.approvalRules == args.approvalRules && ps.log == [] && ps.filed == []
    {
      this.args := args;
      this.defaultBranch := defaultBranch;
      ps := new PS.ProjectSettings(args);
    }

    /** `update_settings`: the sections in their fixed order, each over all
        the projects, stopping at the first failure. */
    method UpdateSettings(pids: seq<ProjectId>, remote: PS.Remote, respond: PS.Responder) returns (o: Outcome)
      requires Valid()
      modifies ps, ps.printer
      ensures Valid()
      ensures (ps.Now(), o, ps.approvalRules) == SettingsRun(old(ps.Now()), args, old(ps.approvalRules), pids, remote, respond)
    {
      o := ps.UpdateApprovalSettings(pids, respond);
      if o.Fail? {
        return;
      }
      o := ps.UpdateApprovalRules(pids, remote, respond);
      if o.Fail? {
        return;
      }
      o := ps.UpdateProjectSettings(pids, respond);
      if o.Fail? {
        return;
      }
      o := ps.UpdateProtectedBranches(pids, remote, respond);
    }
  }
}

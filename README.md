# gitlab-config policy reconciliation, modelled in Dafny

This project models the decision and bookkeeping logic of `gitlab-config`, a
tool that applies one declarative policy (approval settings, the default
approval rule, protected branches and general project settings) to many
GitLab projects through the GitLab REST API. Every HTTP call is an input:

- a read is a function from URL to a `Response` (status and decoded body);
- the GETs the reconciler does without checking their status are a `Remote`
  snapshot per project;
- a write is an `Action` value appended to a log, and its reply comes from a
  `Responder` oracle indexed by the write's position in the log.

The files follow the source's own modules:

- `project_settings.dfy` models `ProjectSettings`, the reconciler. Each
  section is described in two ways. A plan is the sequence of writes the
  source would issue if every reply were accepted. The class methods issue
  those writes one by one, hand each reply to the recorder, and stop at the
  first failure. Each method is proved to perform exactly its section's plan.
  Lemmas about the plans state the section rules:
  - unconditional upserts for approval settings and project settings;
  - the singleton `any_approver` rule;
  - protecting a branch only when exactly one branch has its name and no
    protection does;
  - the approval-rule payload that is shared and mutated from project to
    project.
- `printer_utils.dfy` models `Printer`, the outcome recorder. It is a class
  with the `updated` map and explicit insertion-order sequences, which stand
  in for Python's ordered dictionaries. It also holds the pure "filing"
  functions that specify the class, and `response_json`.
- `gitlab_config.dfy` models project and group selection, the active/stale
  split of branches, the stale predicate, and the section order of
  `update_settings`.
- `args_parser.dfy` models `to_bool`, comma-list normalisation, the two
  selection guards and the `/api/v4` suffix.
- `global_utils.dfy` models JSON values, the recursive `get_json_value`, and
  `fail`.
- `const.dfy` holds the default payloads and the role table.
- `types.dfy` holds the shared error and result types.
- `strings.dfy` holds Python's `str.split`, joining, lower-casing and
  integer rendering.

Exceptions become values. `Result` is used for computations and `Outcome`
for the reconciliation routines. A failure ends the routine and, in
`UpdateSettings`, the remaining sections.

Some behaviours of the code are worth stating outright:

- A branch that is already protected is left alone: there is no update of
  an existing protection (`AlreadyProtectedExample`,
  src/project_settings.py:72).
- A candidate is protected only when exactly one branch entry has its name
  (src/project_settings.py:71). Merely existing is not enough.
- Both approval-rule writes, the PUT update and the POST create, accept
  either 200 or 201 (src/project_settings.py:45-51).
- A listing read fails when requests' `Response.ok` is false, which is when
  the status is from 400 to 599. It does not fail for every status outside
  2xx. The reads inside `ProjectSettings` check no status at all.

## Model

| member | source | states |
|---|---|---|
| `ProjectSettings.UnconditionalPlan` | src/project_settings.py:24-29 | every project, in order, gets exactly one write of the configured payload: approval settings a POST to the approvals endpoint accepted only with 201, project settings a PUT to the project accepted only with 200 |
| `ProjectSettings.ProjectSettings.UpdateApprovalSettings` | src/project_settings.py:18-29 | issues exactly the approval-settings plan: the log grows by the writes issued, the recorder by the accepted replies, and the run stops with the rejected reply's error |
| `ProjectSettings.ProjectSettings.UpdateProjectSettings` | src/project_settings.py:82-100 | the same for project settings: one PUT per project, in order, stopping at the first reply other than 200 |
| `ProjectSettings.ProjectSettings.UpdateEach` | src/project_settings.py:24-29 | the shared per-project loop: the new writes and records are those of running the section's plan from the old state |
| `ProjectSettings.RulesStepCases` | src/project_settings.py:42-51 | one `any_approver` rule: a PUT to `approval_rules/<id>` with the id written into the payload; none: a POST of the payload unchanged; two or more: the "more than one default rule" error and no write; either write accepted with 200 or 201 |
| `ProjectSettings.DefaultRules` | src/project_settings.py:42 | the default rules are exactly the listed entries whose type is `any_approver`, and no more of them than were listed |
| `ProjectSettings.DefaultRulesAppend` | src/project_settings.py:42 | the filter keeps listing order: filtering a concatenation is concatenating the filtered parts |
| `ProjectSettings.DefaultRulesSingle` | src/project_settings.py:42 | a single entry is kept exactly when its type is `any_approver` |
| `ProjectSettings.RulesPlanShape` | src/project_settings.py:38-51 | one approval-rule step per project, in order, each taken with the payload as the earlier projects left it |
| `ProjectSettings.PayloadCarriesLastId` | src/project_settings.py:44 | the id written into the shared payload is never removed: after any projects the payload carries the id of the last single default rule met, so it reaches later PUT and POST bodies |
| `ProjectSettings.RulesRunPayload` | src/project_settings.py:38-49 | the payload the section ends with is the one left by every project it reached, the failing one included |
| `ProjectSettings.TooManyRulesStops` | src/project_settings.py:48-49 | a project with two or more default rules ends the section with that error; the writes issued are exactly those of the earlier projects, none for it or any later project |
| `ProjectSettings.ProjectSettings.UpdateApprovalRules` | src/project_settings.py:32-51 | the approval-rule loop performs `RulesRun`: writes, records, outcome and final shared payload |
| `ProjectSettings.ProjectSettings.UpdateProjectRules` | src/project_settings.py:42-51 | one project's approval-rule decision: the payload becomes `NextPayload` and the write issued is the one `RulesStep` names |
| `ProjectSettings.CandidatesPlanIff` | src/project_settings.py:69-72 | a candidate gets a protection step iff exactly one branch entry has its name and no protection does; every step is a qualifying candidate's protection |
| `ProjectSettings.CandidatesPlanAppend` | src/project_settings.py:69-79 | candidates are handled independently and in their configured order: the plan of a concatenation is the plans concatenated |
| `ProjectSettings.CandidatesPlanSingle` | src/project_settings.py:69-79 | one candidate gets its protection step exactly when it exists once and is not protected, and nothing otherwise |
| `ProjectSettings.ProtectStepName` | src/project_settings.py:73-79 | the protection step determines the candidate's name: two candidates with different names never get the same step |
| `ProjectSettings.ProtectStepSends` | src/project_settings.py:73-79 | the protection is a POST accepted only with 201 carrying the name, the first push level, the first merge level and both flags, with the candidate as body |
| `ProjectSettings.ProtectQueryFields` | src/project_settings.py:73-77 | the protection query splits back into its five `key=value` fields, in the source's order |
| `ProjectSettings.ProtectUrlCarriesQuery` | src/project_settings.py:58-77 | the protection URL is the project's `protected_branches` URL followed by `?` and the query, which splits on `&` into the five fields |
| `ProjectSettings.Url` | src/project_settings.py:37-97 | every endpoint's URL starts with `base_url/projects/<id>` |
| `ProjectSettings.DefaultCandidatesNeverRaise` | src/project_settings.py:73-75 | with the default candidates, no protection step fails for an empty access-level list |
| `ProjectSettings.ProtectMainExample` | src/project_settings.py:69-79 | with branches `main` and `dev` and no protection, the single candidate `main` gets one protection with push level 0 and merge level 40, and `dev` gets nothing |
| `ProjectSettings.AlreadyProtectedExample` | src/project_settings.py:71-72 | a candidate that is already protected gets no call |
| `ProjectSettings.ProjectSettings.UpdateProtectedBranches` | src/project_settings.py:54-79 | the protected-branch loop issues exactly its plan: candidates in configuration order within each project, projects in order |
| `ProjectSettings.ProjectSettings.ProtectProject` | src/project_settings.py:69-79 | one project's candidates are run as their plan, stopping at the first failure |
| `ProjectSettings.ProjectSettings.Issue` | src/project_settings.py:27-29 | a write joins the log whatever the reply, and its reply goes to `dump_response` |
| `ProjectSettings.ProjectSettings.constructor` | src/project_settings.py:13-15 | the reconciler starts with the configuration, its own fresh printer and an empty log |
| `ProjectSettings.ExecuteStop` | src/printer_utils.py:39-45 | a section's run succeeds iff it gets through every step; every step it gets through is an accepted write, filed in order |
| `ProjectSettings.ExecuteStopWrites` | src/printer_utils.py:44-45 | a run issues the writes before the step it stops at, plus that step's rejected write, and ends with that step's error |
| `ProjectSettings.RunExecute` | src/project_settings.py:24-29 | running steps on the machine state is executing them from the log's length |
| `PrinterUtils.Printer.DumpResponse` | src/printer_utils.py:32-45 | an accepted status files the reply under its project and section, in front of any earlier text; any other status is the "failed to update" error and leaves the state unchanged |
| `PrinterUtils.FileSpec` | src/printer_utils.py:39-43 | filing sets the target entry to the new text, or to new + newline + old when one exists; every other entry is unchanged |
| `PrinterUtils.StoredNewestFirst` | src/printer_utils.py:41-43 | after any number of filings an entry exists iff something was filed for it, and holds every text filed for it, newest first, one per line |
| `PrinterUtils.StoredKeys` | src/printer_utils.py:39-43 | the stored projects and sections are exactly those filed |
| `PrinterUtils.FileAllProjectOrder` | src/printer_utils.py:43 | projects are ordered by first filing |
| `PrinterUtils.FileAllSectionOrder` | src/printer_utils.py:43 | each project's sections are ordered by first filing |
| `PrinterUtils.FileAllConsistent` | src/printer_utils.py:39-43 | the insertion orders always list each stored key exactly once |
| `PrinterUtils.StepConsistent` | src/printer_utils.py:39-43 | one filing keeps the insertion orders listing each stored key exactly once |
| `PrinterUtils.SectionOrderFiled` | src/printer_utils.py:41-43 | after a filing, the project's section order is its sections in order of first filing, the new one included |
| `PrinterUtils.Printer.PrintResponse` | src/printer_utils.py:48-53 | one block per project, projects in the order they were first filed; within a block one entry per section, sections in the order they were first filed for that project; every stored entry is shown exactly once, with its text, and nothing else |
| `PrinterUtils.Printer.constructor` | src/printer_utils.py:14-15 | a new printer has recorded nothing |
| `PrinterUtils.ResponseJson` | src/printer_utils.py:18-29 | requests `base_url/path?per_page=999&page=1`; the decoded body iff the response is ok, otherwise the error naming the status and the URL |
| `PrinterUtils.PageQueryText` | src/printer_utils.py:25 | the page query built from the page size 999 is `?per_page=999&page=1` |
| `Types.UpdateFailedMessage` | src/printer_utils.py:45 | the failure message starts with `Project <id> failed to update. Reason: ` and a newline, then the status, then ` - `, then the reply text |
| `GitlabConfig.SelectProjectIds` | src/gitlab_config.py:27-44 | slugs win over namespaces, which win over ids. Slug mode: one id per slug, in order, each looked up at the first namespace plus `/` plus the slug, with the first failed lookup's error. Namespace mode: the listing filtered by namespace. Id mode: the ids verbatim. Nothing selected: `[]` |
| `GitlabConfig.Namespace` | src/gitlab_config.py:40 | the namespace is the prefix of the path before its first `/`, or the whole path without one |
| `GitlabConfig.NamespaceProjectIds` | src/gitlab_config.py:39-40 | an id is selected iff some listed project with that id has its namespace among `namespace_paths` |
| `GitlabConfig.NamespaceProjectIdsAppend` | src/gitlab_config.py:39-40 | listing order is preserved |
| `GitlabConfig.SelectGroupIds` | src/gitlab_config.py:46-52 | the group listing's error, or exactly the ids of the groups whose path is in `namespace_paths`, in listing order (`NamedGroupIds`) |
| `GitlabConfig.NamedGroupIds` | src/gitlab_config.py:52 | a group id is selected iff a listed group with that id has a path in `namespace_paths` |
| `GitlabConfig.NamedGroupIdsAppend` | src/gitlab_config.py:52 | group listing order is preserved |
| `GitlabConfig.StaleIff` | src/gitlab_config.py:83-93 | a branch is stale iff 90 days before now is strictly later than its last commit and it is neither `dev` nor `main`; `dev` and `main` are never stale |
| `GitlabConfig.StaleMonotone` | src/gitlab_config.py:91-93 | a stale branch stays stale as time passes, and a branch stale over a longer window is stale over a shorter one |
| `GitlabConfig.ExcludedDefaults` | src/gitlab_config.py:84 | the default exclusion list splits into `dev` and `main` |
| `GitlabConfig.BranchNames` | src/gitlab_config.py:74-77 | a name is listed iff some branch with that name has the requested activity |
| `GitlabConfig.BranchNamesPartition` | src/gitlab_config.py:74-77 | the active and the stale names together are exactly the listed names, with multiplicity |
| `GitlabConfig.BranchNamesAppend` | src/gitlab_config.py:74-77 | listing order is preserved |
| `GitlabConfig.SelectBranchNames` | src/gitlab_config.py:63-81 | the result is keyed by exactly the selected projects, each mapped to its filtered branch names; the first failed listing stops it with its error |
| `GitlabConfig.SettingsRunOrder` | src/gitlab_config.py:137-141 | when every section succeeds, the writes are all approval settings, then all approval rules, then all project settings, then all branch protections |
| `GitlabConfig.SettingsRunIsOneRun` | src/gitlab_config.py:137-141 | the four sections behave as one plan, theirs concatenated in order, run until its first failure: a failed section leaves no write of any later section |
| `GitlabConfig.RunPassLog` | src/gitlab_config.py:137-141 | a section that succeeds issues every write of its plan, in order |
| `GitlabConfig.GitlabConfig.UpdateSettings` | src/gitlab_config.py:137-141 | runs the sections in the fixed order and stops at the first failure; the log, records, outcome and shared payload are those of `SettingsRun` |
| `GitlabConfig.GitlabConfig.constructor` | src/gitlab_config.py:21-25 | the configuration object owns a fresh reconciler over the same arguments |
| `ArgsParser.ToBool` | src/args_parser.py:62-77 | a bool is returned unchanged. A string is true iff it equals `true` ignoring case, and false iff it equals `false` ignoring case. Any other string is an invalid-literal error; a non-string is an error |
| `ArgsParser.CommaList` | src/args_parser.py:36-38 | no piece is empty or contains a comma; `""` gives `[]`; the pieces hold the input's non-comma characters in order |
| `ArgsParser.CommaListOfJoin` | src/args_parser.py:36-38 | comma-free pieces joined with commas normalise to the same pieces, in order, with the empty ones dropped; with `Strings.JoinSplit` this fixes the result for every input |
| `ArgsParser.CommaListExample` | src/args_parser.py:36-38 | `"a,,b"` normalises to `["a", "b"]` |
| `Strings.NonEmptyAppend` | src/args_parser.py:36-38 | the empty-piece filter keeps or drops each piece independently and in order: filtering a concatenation is concatenating the filtered parts |
| `Strings.NonEmptySingle` | src/args_parser.py:36-38 | a single piece is dropped exactly when it is empty |
| `Strings.JoinSplit` | src/args_parser.py:36-38 | splitting on a separator and joining the pieces back gives the input |
| `ArgsParser.ParseArgs` | src/args_parser.py:32-51 | `base_url` gets `/api/v4` appended. The lists are normalised. Namespaces together with ids are rejected, and so are slugs without namespaces. Success iff the debug flag parses and both guards pass, and then slug mode always has a first namespace |
| `Const.DefaultLevelsUsable` | src/const.py:21-24 | every default protected-branch candidate has a first push level and a first merge level, and both are roles of the role table |
| `GlobalUtils.GetJsonValueSound` | src/global_utils.py:13-15 | every yielded value is the value of some entry, at any depth, whose key is the searched key |
| `GlobalUtils.GetJsonValueEmptyIff` | src/global_utils.py:12-20 | the result is empty iff the key occurs nowhere in the input |
| `GlobalUtils.GetJsonValueArrAppend` | src/global_utils.py:18-20 | a list yields its items' results concatenated in order |
| `GlobalUtils.GetJsonValueObjAppend` | src/global_utils.py:13-17 | an object yields its entries' results concatenated in order |
| `GlobalUtils.MatchingMemberNotSearched` | src/global_utils.py:13-15 | a matching entry yields its value as it stands and is not searched further |
| `GlobalUtils.OtherMemberSearched` | src/global_utils.py:16-17 | an entry whose key does not match yields what its value yields |
| `GlobalUtils.ScalarYieldsNothing` | src/global_utils.py:12-20 | a value that is neither an object nor a list yields nothing, whatever the key |
| `GlobalUtils.ItemSearched` | src/global_utils.py:18-20 | a list item yields what it yields on its own |
| `GlobalUtils.Fail` | src/global_utils.py:1-2 | always a failure: the "failed to update" error naming the project, the status and the reply text |

## Left out

- HTTP is not modelled: requests, headers, authentication, and the encoding
  of request bodies. Reads are functions from URL to response, and writes
  are logged actions answered by an oracle.
- `quote_plus` is not modelled. The slug lookup path carries the namespace
  and the slug unencoded.
- The stray whitespace inside the protected-branch URL literal is not
  modelled. The query is rendered from its five fields.
- The GETs inside `ProjectSettings` are not status-checked in the source.
  Their decoded bodies are the `Remote` snapshot, which always holds
  well-formed entry lists. A failed GET returns an error object such as
  `{"message": ...}`; the comprehensions at src/project_settings.py:42 and
  src/project_settings.py:71-72 then raise a `TypeError` on its first key
  and abort the run. The model cannot represent such a body, so that abort
  is not modelled, and neither is a missing field (a `KeyError`).
- `Remote` is one snapshot per project id for the whole run. When a project
  id is listed twice, its second pass reads the same listings as its first
  and does not see the rules or protections its first pass created; the
  source would then PUT the rule it just created and skip the branch it
  just protected. This happens with a repeated id in `project_ids`, and
  with a repeated slug in `project_slugs`: each slug is looked up on its
  own (src/gitlab_config.py:34-37) and `CommaList` keeps duplicates.
- Push rules: `update_settings` calls `update_push_rules`, which
  `ProjectSettings` does not define. `UpdateSettings` therefore runs the four
  sections that exist and stops there.
- Runtime assembly is not modelled. `GitlabConfig` passes a printer that the
  one-argument `ProjectSettings` constructor does not take. `update_settings`
  files its records into the reconciler's own printer, while
  `GitlabConfig.print_response` (src/main.py:15) prints `GitlabConfig`'s
  printer. That printer receives only the "Duplicated branches" records of
  `duplicate_branches_with_new_names` (src/gitlab_config.py:110), which is
  not modelled, so the printed report lacks the reconciliation records. The
  model keeps the reconciler's printer and checks its report
  (`PrintResponse`). `Optionals.PROJECT_SLUGS` is missing from the
  constants. Each routine is modelled on its own.
- The argparse layer and its help formatter are not modelled, and neither is
  `json.loads` of the payloads. `ParseArgs` starts from the raw strings and
  the already-decoded payloads.
- Clocks and date parsing are not modelled. Times are integer seconds since
  the epoch, and "now" is a parameter. Timezone-naive timestamps, which
  would make the source's comparison raise, are not modelled.
- Regex-driven branch duplication and deletion are not modelled, because
  they rely on Python's regular expressions and HTTP.
- `select_commits_by_branch`, `select_branch_names_with_commits`,
  `select_projects_without_description` and `select_project_by_id` are not
  modelled. They are HTTP reads, or print.
- `csv_exporter.py` and `main.py` are not part of this model.
- `ArgsParser.ToBool` lower-cases ASCII letters only. Python's `str.lower`
  also lower-cases other letters; this model leaves them unchanged.
- The default-branch check in the commented-out block of
  `update_project_settings` is not modelled. It is dead code.
- ANSI colours and the wording of the report are not modelled.
  `PrintResponse` returns the report's structure: projects, sections and
  texts.

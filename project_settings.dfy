/** The reconciliation of `ProjectSettings`: for every selected project, the
    writes that bring its approval settings, approval rules, project settings
    and protected branches in line with the configuration, each reply filed
    with the `Printer`.

    A section is described twice: as a plan, the sequence of steps the source
    would take if every write were accepted (a value, computed from the
    configuration and the remote snapshots), and as the class's method, which
    issues the writes one by one and stops at the first failure. `Execute`
    runs a plan against the replies; each method is proved to do exactly what
    `Execute` of its plan does. */
module ProjectSettings {
  import opened Types
  import opened Strings
  import opened GlobalUtils
  import opened Const
  import opened PrinterUtils
  import ArgsParser

  datatype Verb = Post | Put

  /** The resource a write goes to. */
  datatype Endpoint =
    | Approvals(project: ProjectId)
    | ApprovalRules(project: ProjectId)
    | ApprovalRule(project: ProjectId, ruleId: int)
    | ProjectOf(project: ProjectId)
    | ProtectBranch(project: ProjectId, name: string, pushAccessLevel: int, mergeAccessLevel: int,
                    allowForcePush: bool, codeOwnerApprovalRequired: bool)

  /** The payload of a write. */
  datatype Body = Settings(payload: Json) | RuleFields(fields: map<string, Json>) | Candidate(rule: BranchRule)

  /** One write the tool issues. */
  datatype Action = Action(verb: Verb, target: Endpoint, body: Body)

  /** The reply to the write at position `n` of the run. */
  type Responder = (nat, Action) -> Reply

  const ApprovalSettingsName: string := "Approval settings"
  const ApprovalRulesName: string := "Approval rules"
  const ProjectSettingsName: string := "Project settings"
  const ProtectedBranchesName: string := "Protected branches"

  /** The URL of an endpoint under the API root, as the f-strings build it
      (the query of a branch protection is its fields; see `ProtectParams`). */
  function Url(baseUrl: string, e: Endpoint): (url: string)
    ensures baseUrl + "/projects/" + e.project <= url
  {
    var projectUrl := baseUrl + "/projects/" + e.project;
    match e
    case Approvals(_) => projectUrl + "/approvals"
    case ApprovalRules(_) => projectUrl + "/approval_rules"
    case ApprovalRule(_, id) => projectUrl + "/approval_rules" + "/" + IntToString(id)
    case ProjectOf(_) => projectUrl
    case ProtectBranch(_, name, _, _, _, _) => projectUrl + "/protected_branches" + "?" + Join(ProtectParams(e), '&')
  }

  /** The query parameters of a branch protection, in the source's order. */
  function ProtectParams(e: Endpoint): seq<string>
    requires e.ProtectBranch?
  {
    ["name=" + e.name,
     "push_access_level=" + IntToString(e.pushAccessLevel),
     "merge_access_level=" + IntToString(e.mergeAccessLevel),
     "allow_force_push=" + BoolToString(e.allowForcePush),
     "code_owner_approval_required=" + BoolToString(e.codeOwnerApprovalRequired)]
  }

  /** The query of a branch protection reads back as its five fields, given
      a branch name without `&`. */
  lemma ProtectQueryFields(e: Endpoint)
    requires e.ProtectBranch? && '&' !in e.name
    ensures Split(Join(ProtectParams(e), '&'), '&') == ProtectParams(e)
  {
    var push, merge := IntToString(e.pushAccessLevel), IntToString(e.mergeAccessLevel);
    IntToStringChars(e.pushAccessLevel);
    IntToStringChars(e.mergeAccessLevel);
    assert '&' !in push && '&' !in merge;
    var force, owner := BoolToString(e.allowForcePush), BoolToString(e.codeOwnerApprovalRequired);
    assert '&' !in force && '&' !in owner;
    var ps := ProtectParams(e);
    assert ps == ["name=" + e.name, "push_access_level=" + push, "merge_access_level=" + merge,
                  "allow_force_push=" + force, "code_owner_approval_required=" + owner];
    SplitJoin(ps, '&');
  }

  /** The URL of a branch protection is the project's protected-branches
      URL followed by `?` and the query, and for a branch name without `&`
      the query reads back as the name, the push and merge levels and the
      two flags, in that order. */
  lemma ProtectUrlCarriesQuery(baseUrl: string, e: Endpoint)
    requires e.ProtectBranch? && '&' !in e.name
    ensures var prefix := baseUrl + "/projects/" + e.project + "/protected_branches" + "?";
      && prefix <= Url(baseUrl, e)
      && Split(Url(baseUrl, e)[|prefix|..], '&') == ProtectParams(e)
  {
    var prefix := baseUrl + "/projects/" + e.project + "/protected_branches" + "?";
    var query := Join(ProtectParams(e), '&');
    assert Url(baseUrl, e) == prefix + query;
    assert (prefix + query)[|prefix|..] == query;
    ProtectQueryFields(e);
  }

  // ---------------------------------------------------------------------
  // Running a plan against the replies

  /** One step of a section: a write with the statuses that accept it, or
      an exception raised before any write. */
  datatype Step =
    | Write(project: ProjectId, section: string, action: Action, accepted: set<int>)
    | Raise(error: Error)

  /** What a run did: the writes issued, the replies filed, and how it ended. */
  datatype Trace = Trace(writes: seq<Action>, records: seq<Record>, outcome: Outcome)

  /** Running `steps`, the first of them at reply position `pos`: each write
      is issued and its reply filed if accepted; a rejected reply or a raise
      ends the run with that error. */
  function Execute(steps: seq<Step>, respond: Responder, pos: nat): Trace
    decreases |steps|
  {
    if steps == [] then Trace([], [], Pass)
    else match steps[0]
      case Raise(e) => Trace([], [], Outcome.Fail(e))
      case Write(p, s, a, acc) =>
        var reply := respond(pos, a);
        if reply.status in acc then
          var rest := Execute(steps[1..], respond, pos + 1);
          Trace([a] + rest.writes, [Record(p, s, reply.text)] + rest.records, rest.outcome)
        else Trace([a], [], Outcome.Fail(UpdateFailed(p, reply.status, reply.text)))
  }

  /** The actions of the writes of `steps`, in order. */
  function ActionsOf(steps: seq<Step>): seq<Action>
    decreases |steps|
  {
    if steps == [] then []
    else (if steps[0].Write? then [steps[0].action] else []) + ActionsOf(steps[1..])
  }

  /** How many steps a run gets through before it stops. */
  function Stop(steps: seq<Step>, respond: Responder, pos: nat): (k: nat)
    ensures k <= |steps|
    decreases |steps|
  {
    if steps == [] then 0
    else match steps[0]
      case Raise(_) => 0
      case Write(_, _, a, acc) => if respond(pos, a).status in acc then 1 + Stop(steps[1..], respond, pos + 1) else 0
  }

  /** A run succeeds exactly when it gets through every step, and all steps
      it gets through are accepted writes, whose replies it files in order. */
  lemma {:induction false} ExecuteStop(steps: seq<Step>, respond: Responder, pos: nat)
    ensures var t, k := Execute(steps, respond, pos), Stop(steps, respond, pos);
      && (t.outcome == Pass <==> k == |steps|)
      && |t.records| == k
      && (forall i :: 0 <= i < k ==>
            && steps[i].Write?
            && respond(pos + i, steps[i].action).status in steps[i].accepted
            && t.records[i] == Record(steps[i].project, steps[i].section, respond(pos + i, steps[i].action).text))
    decreases |steps|
  {
    if steps != [] && steps[0].Write? && respond(pos, steps[0].action).status in steps[0].accepted {
      ExecuteStop(steps[1..], respond, pos + 1);
      var t := Execute(steps, respond, pos);
      forall i | 0 <= i < Stop(steps, respond, pos)
        ensures steps[i].Write? && respond(pos + i, steps[i].action).status in steps[i].accepted
        ensures t.records[i] == Record(steps[i].project, steps[i].section, respond(pos + i, steps[i].action).text)
      {
        if i > 0 {
          assert steps[1..][i - 1] == steps[i];
        }
      }
    }
  }

  /** A run issues the writes of the steps it got through, plus the
      rejected write it stops at, and ends with that step's error. */
  lemma {:induction false} ExecuteStopWrites(steps: seq<Step>, respond: Responder, pos: nat)
    ensures var t, k := Execute(steps, respond, pos), Stop(steps, respond, pos);
      && (k < |steps| && steps[k].Raise? ==>
            t.writes == ActionsOf(steps[..k]) && t.outcome == Outcome.Fail(steps[k].error))
      && (k < |steps| && steps[k].Write? ==>
            var reply := respond(pos + k, steps[k].action);
            && t.writes == ActionsOf(steps[..k + 1])
            && t.outcome == Outcome.Fail(UpdateFailed(steps[k].project, reply.status, reply.text)))
      && (k == |steps| ==> t.writes == ActionsOf(steps))
    decreases |steps|
  {
    if steps != [] {
      var k := Stop(steps, respond, pos);
      if steps[0].Write? && respond(pos, steps[0].action).status in steps[0].accepted {
        ExecuteStopWrites(steps[1..], respond, pos + 1);
        var k' := Stop(steps[1..], respond, pos + 1);
        if k < |steps| {
          assert steps[..k][1..] == steps[1..][..k'];
          assert steps[..k + 1][1..] == steps[1..][..k' + 1];
          assert steps[1..][k'] == steps[k];
        } else {
          assert steps[1..][..k'] == steps[1..];
        }
      } else {
        assert steps[..1][1..] == [];
        assert ActionsOf(steps[..0]) == [];
      }
    }
  }

  /** What the tool holds between writes: the writes issued so far and the
      records `dump_response` has filed so far. The reply to a write depends
      on its position in the log. */
  datatype Machine = Machine(log: seq<Action>, filed: seq<Record>)

  /** One step on a machine: a write is issued (it joins the log whatever
      the reply) and `dump_response` files an accepted reply or turns any
      other into the "failed to update" error; a raise changes nothing. */
  function Perform(m: Machine, st: Step, respond: Responder): (Machine, Outcome)
  {
    match st
    case Raise(e) => (m, Outcome.Fail(e))
    case Write(p, s, a, acc) =>
      var reply := respond(|m.log|, a);
      if reply.status in acc then (Machine(m.log + [a], m.filed + [Record(p, s, reply.text)]), Pass)
      else (Machine(m.log + [a], m.filed), Outcome.Fail(UpdateFailed(p, reply.status, reply.text)))
  }

  /** Steps performed one after the other until one fails. */
  function Run(m: Machine, steps: seq<Step>, respond: Responder): (Machine, Outcome)
    decreases |steps|
  {
    if steps == [] then (m, Pass)
    else
      var r := Perform(m, steps[0], respond);
      if r.1.Fail? then r else Run(r.0, steps[1..], respond)
  }

  /** Running steps on a machine is executing them from its log's length:
      the log grows by the trace's writes, the filed records by the trace's
      records, and the outcome is the trace's. */
  lemma {:induction false} RunExecute(m: Machine, steps: seq<Step>, respond: Responder)
    ensures var t := Execute(steps, respond, |m.log|);
      Run(m, steps, respond) == (Machine(m.log + t.writes, m.filed + t.records), t.outcome)
    decreases |steps|
  {
    if steps == [] {
      assert m.log + [] == m.log && m.filed + [] == m.filed;
    } else {
      var st, rest := steps[0], steps[1..];
      assert steps == [st] + rest;
      RunCons(m, st, rest, respond);
      ExecuteCons(st, rest, respond, |m.log|);
      var r := Perform(m, st, respond);
      if r.1.Pass? {
        RunExecute(r.0, rest, respond);
        var t1 := Execute(rest, respond, |m.log| + 1);
        assert m.log + ([st.action] + t1.writes) == (m.log + [st.action]) + t1.writes;
        assert m.filed + ([r.0.filed[|m.filed|]] + t1.records) == r.0.filed + t1.records;
      } else {
        assert m.log + [] == m.log && m.filed + [] == m.filed;
      }
    }
  }

  /** Executing a plan that starts with `st`. */
  lemma ExecuteCons(st: Step, rest: seq<Step>, respond: Responder, pos: nat)
    ensures st.Raise? ==> Execute([st] + rest, respond, pos) == Trace([], [], Outcome.Fail(st.error))
    ensures st.Write? ==>
      var reply, t := respond(pos, st.action), Execute(rest, respond, pos + 1);
      Execute([st] + rest, respond, pos) ==
        if reply.status in st.accepted then
          Trace([st.action] + t.writes, [Record(st.project, st.section, reply.text)] + t.records, t.outcome)
        else Trace([st.action], [], Outcome.Fail(UpdateFailed(st.project, reply.status, reply.text)))
  {
    assert ([st] + rest)[0] == st;
    assert ([st] + rest)[1..] == rest;
  }

  /** Running `a + b` is running `a`, then, if it succeeded, `b` on what it
      left. */
  lemma {:induction false} RunAppend(m: Machine, a: seq<Step>, b: seq<Step>, respond: Responder)
    ensures var ra := Run(m, a, respond);
      Run(m, a + b, respond) == if ra.1.Fail? then ra else Run(ra.0, b, respond)
    decreases |a|
  {
    if a == [] {
      assert a + b == b;
    } else {
      assert (a + b)[0] == a[0];
      assert (a + b)[1..] == a[1..] + b;
      var r := Perform(m, a[0], respond);
      if r.1.Pass? {
        RunAppend(r.0, a[1..], b, respond);
      }
    }
  }

  /** Running a plan that starts with `st`: `st` is performed, and the rest
      runs only if it succeeded, counting on from one step further. */
  lemma RunCons(m: Machine, st: Step, rest: seq<Step>, respond: Responder)
    ensures var r := Perform(m, st, respond);
      && Run(m, [st] + rest, respond) == (if r.1.Fail? then r else Run(r.0, rest, respond))
      && Stop([st] + rest, respond, |m.log|) == (if r.1.Fail? then 0 else 1 + Stop(rest, respond, |r.0.log|))
  {
    assert ([st] + rest)[0] == st;
    assert ([st] + rest)[1..] == rest;
  }

  // ---------------------------------------------------------------------
  // The plans

  /** A remote snapshot: what the project's GET requests return. */
  datatype RuleEntry = RuleEntry(id: int, ruleType: string)

  datatype Remote = Remote(
    approvalRules: ProjectId -> seq<RuleEntry>,
    branches: ProjectId -> seq<string>,
    protectedBranches: ProjectId -> seq<string>)

  /** The sections whose steps for a project do not depend on earlier
      projects. */
  datatype Section =
    | ApprovalSettingsSection(approvalSettings: Json)
    | ProjectSettingsSection(projectSettings: Json)
    | ProtectedBranchesSection(remote: Remote, candidates: seq<BranchRule>)

  function StepsFor(sec: Section, p: ProjectId): seq<Step>
  {
    match sec
    case ApprovalSettingsSection(s) => [Write(p, ApprovalSettingsName, Action(Post, Approvals(p), Settings(s)), {201})]
    case ProjectSettingsSection(s) => [Write(p, ProjectSettingsName, Action(Put, ProjectOf(p), Settings(s)), {200})]
    case ProtectedBranchesSection(remote, cs) => CandidatesPlan(p, cs, remote.branches(p), remote.protectedBranches(p))
  }

  /** The steps for the projects in turn. */
  function Plan(sec: Section, pids: seq<ProjectId>): seq<Step>
    decreases |pids|
  {
    if pids == [] then [] else StepsFor(sec, pids[0]) + Plan(sec, pids[1..])
  }

  /** The plan for a concatenation of project lists is the concatenation
      of their plans. */
  lemma {:induction false} PlanAppend(sec: Section, a: seq<ProjectId>, b: seq<ProjectId>)
    ensures Plan(sec, a + b) == Plan(sec, a) + Plan(sec, b)
    decreases |a|
  {
    if a == [] {
      assert a + b == b;
    } else {
      assert (a + b)[0] == a[0];
      assert (a + b)[1..] == a[1..] + b;
      PlanAppend(sec, a[1..], b);
    }
  }

  /** Approval settings and project settings are unconditional: every
      project, in order, gets exactly one write of the configured payload
      (a POST accepted only with 201, a PUT accepted only with 200). */
  lemma {:induction false} UnconditionalPlan(sec: Section, pids: seq<ProjectId>)
    requires !sec.ProtectedBranchesSection?
    ensures |Plan(sec, pids)| == |pids|
    ensures sec.ApprovalSettingsSection? ==> forall i :: 0 <= i < |pids| ==>
      Plan(sec, pids)[i] == Write(pids[i], ApprovalSettingsName, Action(Post, Approvals(pids[i]), Settings(sec.approvalSettings)), {201})
    ensures sec.ProjectSettingsSection? ==> forall i :: 0 <= i < |pids| ==>
      Plan(sec, pids)[i] == Write(pids[i], ProjectSettingsName, Action(Put, ProjectOf(pids[i]), Settings(sec.projectSettings)), {200})
    decreases |pids|
  {
    if pids != [] {
      UnconditionalPlan(sec, pids[1..]);
      forall i | 0 < i < |pids| ensures Plan(sec, pids)[i] == Plan(sec, pids[1..])[i - 1] && pids[1..][i - 1] == pids[i] {
      }
    }
  }

  /** How often `x` occurs in `xs`. */
  function Count(xs: seq<string>, x: string): nat
    decreases |xs|
  {
    if xs == [] then 0 else Count(xs[..|xs| - 1], x) + (if xs[|xs| - 1] == x then 1 else 0)
  }

  /** A candidate is protected only when exactly one branch has its name and
      no protection does. */
  predicate Qualifies(name: string, branches: seq<string>, protectedBranches: seq<string>)
  {
    Count(branches, name) == 1 && Count(protectedBranches, name) == 0
  }

  /** The protection of one qualifying candidate: its first push and first
      merge levels go into the query; an empty level list fails on indexing
      before anything is sent. */
  function ProtectStep(p: ProjectId, c: BranchRule): Step
  {
    if c.pushAccessLevels == [] || c.mergeAccessLevels == [] then Raise(MissingAccessLevel(p, c.name))
    else
      Write(p, ProtectedBranchesName,
            Action(Post,
                   ProtectBranch(p, c.name, c.pushAccessLevels[0].accessLevel, c.mergeAccessLevels[0].accessLevel,
                                 c.allowForcePush, c.codeOwnerApprovalRequired),
                   Candidate(c)),
            {201})
  }

  /** The step, if any, for one candidate. */
  function CandidateSteps(p: ProjectId, c: BranchRule, branches: seq<string>, protectedBranches: seq<string>): seq<Step>
  {
    if Qualifies(c.name, branches, protectedBranches) then [ProtectStep(p, c)] else []
  }

  /** The steps for the candidates of one project, in configuration order:
      one for each qualifying candidate, none for the others. */
  function CandidatesPlan(p: ProjectId, cs: seq<BranchRule>, branches: seq<string>, protectedBranches: seq<string>): seq<Step>
    decreases |cs|
  {
    if cs == [] then []
    else CandidateSteps(p, cs[0], branches, protectedBranches) + CandidatesPlan(p, cs[1..], branches, protectedBranches)
  }

  /** A candidate of the configuration gets a step exactly when it qualifies;
      every step is a qualifying candidate's protection, so an existing
      protection or a missing branch is never touched. */
  lemma {:induction false} CandidatesPlanIff(p: ProjectId, cs: seq<BranchRule>, branches: seq<string>, prot: seq<string>)
    ensures forall c :: c in cs ==> (ProtectStep(p, c) in CandidatesPlan(p, cs, branches, prot) <==> Qualifies(c.name, branches, prot))
    ensures forall st :: st in CandidatesPlan(p, cs, branches, prot) ==>
      exists c :: c in cs && Qualifies(c.name, branches, prot) && st == ProtectStep(p, c)
    decreases |cs|
  {
    if cs != [] {
      var head := cs[0];
      var tail := cs[1..];
      CandidatesPlanIff(p, tail, branches, prot);
      assert cs == [head] + tail;
      forall c | c in cs
        ensures ProtectStep(p, c) in CandidatesPlan(p, cs, branches, prot) <==> Qualifies(c.name, branches, prot)
      {
        if ProtectStep(p, c) in CandidatesPlan(p, cs, branches, prot) {
          if ProtectStep(p, c) in CandidatesPlan(p, tail, branches, prot) {
            var c' :| c' in tail && Qualifies(c'.name, branches, prot) && ProtectStep(p, c) == ProtectStep(p, c');
            ProtectStepName(p, c, c');
          } else {
            ProtectStepName(p, c, head);
          }
        } else if c in tail {
        }
      }
    }
  }

  /** Candidates are handled in configuration order, each on its own: the
      steps for two consecutive stretches of the configuration are the steps
      of the first stretch followed by those of the second. */
  lemma {:induction false} CandidatesPlanAppend(p: ProjectId, a: seq<BranchRule>, b: seq<BranchRule>,
                                                branches: seq<string>, prot: seq<string>)
    ensures CandidatesPlan(p, a + b, branches, prot) ==
      CandidatesPlan(p, a, branches, prot) + CandidatesPlan(p, b, branches, prot)
    decreases |a|
  {
    if a == [] {
      assert a + b == b;
    } else {
      assert (a + b)[0] == a[0];
      assert (a + b)[1..] == a[1..] + b;
      CandidatesPlanAppend(p, a[1..], b, branches, prot);
    }
  }

  /** One candidate alone gets one protection step when it qualifies and
      none otherwise. */
  lemma CandidatesPlanSingle(p: ProjectId, c: BranchRule, branches: seq<string>, prot: seq<string>)
    ensures CandidatesPlan(p, [c], branches, prot) ==
      if Qualifies(c.name, branches, prot) then [ProtectStep(p, c)] else []
  {
    assert [c][1..] == [];
  }

  /** Equal protection steps are for candidates of the same name. */
  lemma ProtectStepName(p: ProjectId, c: BranchRule, c': BranchRule)
    requires ProtectStep(p, c) == ProtectStep(p, c')
    ensures c.name == c'.name
  {
    if c.pushAccessLevels == [] || c.mergeAccessLevels == [] {
      assert ProtectStep(p, c).error == MissingAccessLevel(p, c.name);
    } else {
      assert ProtectStep(p, c).action.body == Candidate(c);
    }
  }

  /** The protection a project's plan sends for a qualifying candidate with
      levels: a POST accepted only with 201 whose query carries the name, the
      first push and merge levels and the two flags, and whose body is the
      candidate itself. */
  lemma ProtectStepSends(p: ProjectId, c: BranchRule)
    requires c.pushAccessLevels != [] && c.mergeAccessLevels != []
    ensures var st := ProtectStep(p, c);
      && st.Write? && st.accepted == {201} && st.action.verb == Post && st.action.body == Candidate(c)
      && st.action.target.ProtectBranch? && st.action.target.project == p && st.action.target.name == c.name
      && st.action.target.pushAccessLevel == c.pushAccessLevels[0].accessLevel
      && st.action.target.mergeAccessLevel == c.mergeAccessLevels[0].accessLevel
      && st.action.target.allowForcePush == c.allowForcePush
      && st.action.target.codeOwnerApprovalRequired == c.codeOwnerApprovalRequired
  {
  }

  /** With the default candidates no project's plan raises. */
  lemma {:induction false} DefaultCandidatesNeverRaise(p: ProjectId, branches: seq<string>, prot: seq<string>)
    ensures forall st :: st in CandidatesPlan(p, DefaultProtectedBranches, branches, prot) ==> st.Write?
  {
    CandidatesPlanIff(p, DefaultProtectedBranches, branches, prot);
    DefaultLevelsUsable();
    forall st | st in CandidatesPlan(p, DefaultProtectedBranches, branches, prot) ensures st.Write? {
      var c :| c in DefaultProtectedBranches && Qualifies(c.name, branches, prot) && st == ProtectStep(p, c);
    }
  }

  // ---------------------------------------------------------------------
  // Approval rules: the one section whose steps depend on earlier projects

  /** The `any_approver` rules of a listing, in order. */
  function DefaultRules(entries: seq<RuleEntry>): (r: seq<RuleEntry>)
    ensures forall e :: e in r <==> e in entries && e.ruleType == "any_approver"
    ensures |r| <= |entries|
    decreases |entries|
  {
    if entries == [] then []
    else
      var last := entries[|entries| - 1];
      assert entries == entries[..|entries| - 1] + [last];
      DefaultRules(entries[..|entries| - 1]) + (if last.ruleType == "any_approver" then [last] else [])
  }

  /** The filter keeps the listing's order and multiplicity: the default
      rules of two consecutive stretches of a listing are those of the first
      followed by those of the second. */
  lemma {:induction false} DefaultRulesAppend(a: seq<RuleEntry>, b: seq<RuleEntry>)
    ensures DefaultRules(a + b) == DefaultRules(a) + DefaultRules(b)
    decreases |b|
  {
    if b == [] {
      assert a + b == a;
    } else {
      var init, last := b[..|b| - 1], b[|b| - 1];
      var keep := if last.ruleType == "any_approver" then [last] else [];
      assert (a + b)[..|a + b| - 1] == a + init;
      assert (a + b)[|a + b| - 1] == last;
      assert DefaultRules(a + b) == DefaultRules(a + init) + keep;
      assert DefaultRules(b) == DefaultRules(init) + keep;
      DefaultRulesAppend(a, init);
    }
  }

  /** One entry is kept exactly when it is an `any_approver` rule. */
  lemma DefaultRulesSingle(e: RuleEntry)
    ensures DefaultRules([e]) == if e.ruleType == "any_approver" then [e] else []
  {
    assert [e][..0] == [];
  }

  /** The shared payload after a project: a single default rule's id is
      written into it; otherwise it is left as it is. */
  function NextPayload(entries: seq<RuleEntry>, payload: map<string, Json>): map<string, Json>
  {
    var d := DefaultRules(entries);
    if |d| == 1 then payload["id" := Num(d[0].id)] else payload
  }

  /** The step for one project, given the payload as earlier projects left it. */
  function RulesStep(p: ProjectId, entries: seq<RuleEntry>, payload: map<string, Json>): Step
  {
    var d := DefaultRules(entries);
    if |d| == 1 then
      Write(p, ApprovalRulesName, Action(Put, ApprovalRule(p, d[0].id), RuleFields(NextPayload(entries, payload))), {200, 201})
    else if |d| == 0 then
      Write(p, ApprovalRulesName, Action(Post, ApprovalRules(p), RuleFields(payload)), {200, 201})
    else Raise(TooManyDefaultRules(p))
  }

  /** The shared payload after the projects `pids`, in turn. */
  function PayloadAfter(pids: seq<ProjectId>, remote: Remote, payload: map<string, Json>): map<string, Json>
    decreases |pids|
  {
    if pids == [] then payload
    else NextPayload(remote.approvalRules(pids[|pids| - 1]), PayloadAfter(pids[..|pids| - 1], remote, payload))
  }

  /** The steps for the projects in turn, each taken with the payload as the
      earlier ones left it. */
  function RulesPlan(pids: seq<ProjectId>, remote: Remote, payload: map<string, Json>): (plan: seq<Step>)
    ensures |plan| == |pids|
    decreases |pids|
  {
    if pids == [] then []
    else
      var entries := remote.approvalRules(pids[0]);
      [RulesStep(pids[0], entries, payload)] + RulesPlan(pids[1..], remote, NextPayload(entries, payload))
  }

  /** The three cases of a project's approval-rule step: one default rule is
      updated in place at its id, with the id written into the payload; none
      is created from the payload as it stands; two or more raise. Either
      write is accepted with 200 or 201. */
  lemma RulesStepCases(p: ProjectId, entries: seq<RuleEntry>, payload: map<string, Json>)
    ensures var d, st := DefaultRules(entries), RulesStep(p, entries, payload);
      && (st.Raise? <==> |d| >= 2)
      && (st.Raise? ==> st.error == TooManyDefaultRules(p))
      && (st.Write? ==> st.project == p && st.section == ApprovalRulesName && st.accepted == {200, 201})
      && (|d| == 1 ==>
            && st.action == Action(Put, ApprovalRule(p, d[0].id), RuleFields(payload["id" := Num(d[0].id)]))
            && d[0] in entries && d[0].ruleType == "any_approver"
            && NextPayload(entries, payload) == payload["id" := Num(d[0].id)])
      && (|d| == 0 ==>
            && st.action == Action(Post, ApprovalRules(p), RuleFields(payload))
            && NextPayload(entries, payload) == payload
            && forall e :: e in entries ==> e.ruleType != "any_approver")
  {
    var d := DefaultRules(entries);
    if |d| == 1 {
      assert d[0] in d;
    }
  }

  /** The payload after a first project and then the rest. */
  lemma {:induction false} PayloadAfterCons(p: ProjectId, pids: seq<ProjectId>, remote: Remote, payload: map<string, Json>)
    ensures PayloadAfter([p] + pids, remote, payload) == PayloadAfter(pids, remote, NextPayload(remote.approvalRules(p), payload))
    decreases |pids|
  {
    if pids == [] {
      assert ([p] + pids)[..0] == [];
    } else {
      assert ([p] + pids)[..|[p] + pids| - 1] == [p] + pids[..|pids| - 1];
      PayloadAfterCons(p, pids[..|pids| - 1], remote, payload);
    }
  }

  /** A non-empty prefix is the first element and a prefix of the rest. */
  lemma PrefixCons<T>(xs: seq<T>, n: nat)
    requires n < |xs|
    ensures xs[..n + 1] == [xs[0]] + xs[1..][..n]
  {
  }

  /** One step per project, in order, each taken with the payload as the
      earlier projects left it. */
  lemma {:induction false} RulesPlanShape(pids: seq<ProjectId>, remote: Remote, payload: map<string, Json>)
    ensures forall i :: 0 <= i < |pids| ==>
      RulesPlan(pids, remote, payload)[i] == RulesStep(pids[i], remote.approvalRules(pids[i]), PayloadAfter(pids[..i], remote, payload))
    decreases |pids|
  {
    if pids != [] {
      var next := NextPayload(remote.approvalRules(pids[0]), payload);
      RulesPlanShape(pids[1..], remote, next);
      assert pids[..0] == [];
      forall i | 0 < i < |pids|
        ensures RulesPlan(pids, remote, payload)[i] == RulesStep(pids[i], remote.approvalRules(pids[i]), PayloadAfter(pids[..i], remote, payload))
      {
        PrefixCons(pids, i - 1);
        PayloadAfterCons(pids[0], pids[1..][..i - 1], remote, payload);
      }
    }
  }

  /** The approval-rule section on a machine: each project's step is
      performed with the payload as the earlier projects left it; the run
      stops at the first failure, with the payload as the failing project
      left it. */
  function RulesRun(m: Machine, pids: seq<ProjectId>, remote: Remote, payload: map<string, Json>, respond: Responder)
    : (Machine, Outcome, map<string, Json>)
    decreases |pids|
  {
    if pids == [] then (m, Pass, payload)
    else
      var entries := remote.approvalRules(pids[0]);
      var r := Perform(m, RulesStep(pids[0], entries, payload), respond);
      if r.1.Fail? then (r.0, r.1, NextPayload(entries, payload))
      else RulesRun(r.0, pids[1..], remote, NextPayload(entries, payload), respond)
  }

  /** The approval-rule section on a machine runs its plan. */
  lemma {:induction false} RulesRunPlan(m: Machine, pids: seq<ProjectId>, remote: Remote, payload: map<string, Json>, respond: Responder)
    ensures var r := RulesRun(m, pids, remote, payload, respond);
      (r.0, r.1) == Run(m, RulesPlan(pids, remote, payload), respond)
    decreases |pids|
  {
    if pids != [] {
      var entries := remote.approvalRules(pids[0]);
      var next := NextPayload(entries, payload);
      var st := RulesStep(pids[0], entries, payload);
      RunCons(m, st, RulesPlan(pids[1..], remote, next), respond);
      var r := Perform(m, st, respond);
      if r.1.Pass? {
        RulesRunPlan(r.0, pids[1..], remote, next, respond);
      }
    }
  }

  /** The payload the approval-rule section ends with is the one left by
      every project the run reached: all of them on success, up to and
      including the one it stopped at otherwise. */
  lemma {:induction false} RulesRunPayload(m: Machine, pids: seq<ProjectId>, remote: Remote, payload: map<string, Json>, respond: Responder)
    ensures var k := Stop(RulesPlan(pids, remote, payload), respond, |m.log|);
      RulesRun(m, pids, remote, payload, respond).2 == PayloadAfter(pids[..if k < |pids| then k + 1 else k], remote, payload)
    decreases |pids|
  {
    if pids == [] {
      assert pids[..0] == [];
    } else {
      var p := pids[0];
      var entries := remote.approvalRules(p);
      var next := NextPayload(entries, payload);
      var st := RulesStep(p, entries, payload);
      var rest := RulesPlan(pids[1..], remote, next);
      assert RulesPlan(pids, remote, payload) == [st] + rest;
      RunCons(m, st, rest, respond);
      var r := Perform(m, st, respond);
      if r.1.Pass? {
        assert RulesRun(m, pids, remote, payload, respond) == RulesRun(r.0, pids[1..], remote, next, respond);
        RulesRunPayload(r.0, pids[1..], remote, next, respond);
        var k' := Stop(rest, respond, |r.0.log|);
        assert Stop([st] + rest, respond, |m.log|) == 1 + k';
        var n := if k' < |pids[1..]| then k' + 1 else k';
        PrefixCons(pids, n);
        PayloadAfterCons(p, pids[1..][..n], remote, payload);
      } else {
        assert RulesRun(m, pids, remote, payload, respond).2 == next;
        assert Stop([st] + rest, respond, |m.log|) == 0;
        PrefixCons(pids, 0);
        PayloadAfterCons(p, pids[1..][..0], remote, payload);
      }
    }
  }

  /** The id of the last project so far with exactly one default rule. */
  function LastSingleRuleId(pids: seq<ProjectId>, remote: Remote): Option<int>
    decreases |pids|
  {
    if pids == [] then None
    else
      var d := DefaultRules(remote.approvalRules(pids[|pids| - 1]));
      if |d| == 1 then Some(d[0].id) else LastSingleRuleId(pids[..|pids| - 1], remote)
  }

  /** The id is written into the shared payload and never removed: after any
      run of projects the payload carries the id of the last single default
      rule met, so it reaches every later project's body, a POST included. */
  lemma {:induction false} PayloadCarriesLastId(pids: seq<ProjectId>, remote: Remote, payload: map<string, Json>)
    ensures PayloadAfter(pids, remote, payload) ==
      match LastSingleRuleId(pids, remote)
      case None => payload
      case Some(id) => payload["id" := Num(id)]
    decreases |pids|
  {
    if pids != [] {
      var init := pids[..|pids| - 1];
      PayloadCarriesLastId(init, remote, payload);
      var d := DefaultRules(remote.approvalRules(pids[|pids| - 1]));
      if |d| == 1 {
        match LastSingleRuleId(init, remote)
        case None =>
        case Some(id) =>
          assert payload["id" := Num(id)]["id" := Num(d[0].id)] == payload["id" := Num(d[0].id)];
      }
    }
  }

  /** A project holding two or more default rules stops the section: once
      the earlier projects' writes were accepted, the run ends with the
      "more than one default rule" error, and the writes issued are exactly
      those of the earlier projects; that project and the later ones get
      none. */
  lemma TooManyRulesStops(m: Machine, pids: seq<ProjectId>, remote: Remote, payload: map<string, Json>,
                          respond: Responder, k: nat)
    requires k < |pids| && |DefaultRules(remote.approvalRules(pids[k]))| >= 2
    requires Stop(RulesPlan(pids, remote, payload), respond, |m.log|) >= k
    ensures var r, plan := RulesRun(m, pids, remote, payload, respond), RulesPlan(pids, remote, payload);
      && r.1 == Outcome.Fail(TooManyDefaultRules(pids[k]))
      && r.0.log == m.log + ActionsOf(plan[..k])
  {
    var plan := RulesPlan(pids, remote, payload);
    RulesPlanShape(pids, remote, payload);
    RulesStepCases(pids[k], remote.approvalRules(pids[k]), PayloadAfter(pids[..k], remote, payload));
    assert plan[k].Raise?;
    ExecuteStop(plan, respond, |m.log|);
    assert Stop(plan, respond, |m.log|) == k;
    ExecuteStopWrites(plan, respond, |m.log|);
    RulesRunPlan(m, pids, remote, payload, respond);
    RunExecute(m, plan, respond);
  }

  /** Project 10 with branches `main` and `dev`, no protection, and `main`
      as the only candidate: one POST protecting `main` with push level 0 and
      merge level 40; `dev` is not a candidate and gets nothing. */
  lemma ProtectMainExample()
    ensures CandidatesPlan("10", [DefaultRule("main")], ["main", "dev"], []) ==
      [Write("10", ProtectedBranchesName,
             Action(Post, ProtectBranch("10", "main", 0, 40, false, false), Candidate(DefaultRule("main"))), {201})]
  {
    var cs := [DefaultRule("main")];
    assert ["main", "dev"][..1] == ["main"];
    assert ["main"][..0] == [];
    assert Qualifies("main", ["main", "dev"], []);
    assert cs[1..] == [];
  }

  /** Project 10 with branches `main` and `dev` where `main` is already
      protected: nothing is sent for it; there is no update of an existing
      protection. */
  lemma AlreadyProtectedExample(prot: seq<string>)
    requires "main" in prot
    ensures CandidatesPlan("10", [DefaultRule("main")], ["main", "dev"], prot) == []
  {
    CountPositive(prot, "main");
    assert [DefaultRule("main")][1..] == [];
  }

  /** A name that occurs in a listing is counted there. */
  lemma {:induction false} CountPositive(xs: seq<string>, x: string)
    requires x in xs
    ensures Count(xs, x) > 0
    decreases |xs|
  {
    if xs[|xs| - 1] != x {
      assert xs == xs[..|xs| - 1] + [xs[|xs| - 1]];
      CountPositive(xs[..|xs| - 1], x);
    }
  }

  // ---------------------------------------------------------------------
  // The class

  /** `ProjectSettings`: the configuration, the shared approval-rule payload
      that `update_approval_rules` mutates, the writes issued so far, and the
      recorder. */
  class ProjectSettings {
    const args: ArgsParser.Args
    var approvalRules: map<string, Json>
    var log: seq<Action>
    /** The records the recorder has filed, in filing order. */
    ghost var filed: seq<Record>
    const printer: Printer

    /** The recorder's ledger is the empty ledger with the filed records
        filed in order. */
    ghost predicate Valid()
      reads this, printer
    {
      printer.State() == FileAll(EmptyLedger, filed)
    }

    /** The writes issued so far and the records filed so far. */
    ghost function Now(): Machine
      reads this
    {
      Machine(log, filed)
    }

    constructor (args: ArgsParser.Args)
      ensures fresh(printer) && printer.Valid() && Valid()
      ensures this.args == args && approvalRules == args.approvalRules && log == [] && filed == []
    {
      this.args := args;
      approvalRules := args.approvalRules;
      log := [];
      filed := [];
      printer := new Printer();
    }

    /** Issues one write and hands its reply to `dump_response`. */
    method Issue(step: Step, respond: Responder) returns (o: Outcome)
      requires step.Write? && Valid()
      modifies this, printer
      ensures Valid()
      ensures approvalRules == old(approvalRules)
      ensures (Now(), o) == Perform(old(Now()), step, respond)
    {
      var reply := respond(|log|, step.action);
      log := log + [step.action];
      o := printer.DumpResponse(reply, step.project, step.section, step.accepted);
      if o.Pass? {
        var r := Record(step.project, step.section, reply.text);
        assert (filed + [r])[..|filed|] == filed;
        filed := filed + [r];
      }
    }

    /** The loop shared by `update_approval_settings` and
        `update_project_settings`: one write per project, in order, stopping
        at the first rejected one. */
    method UpdateEach(sec: Section, pids: seq<ProjectId>, respond: Responder) returns (o: Outcome)
      requires !sec.ProtectedBranchesSection? && Valid()
      modifies this, printer
      ensures Valid()
      ensures approvalRules == old(approvalRules)
      ensures (Now(), o) == Run(old(Now()), Plan(sec, pids), respond)
    {
      ghost var m0 := Now();
      assert pids[0..] == pids;
      for i := 0 to |pids|
        invariant Valid() && approvalRules == old(approvalRules)
        invariant Run(m0, Plan(sec, pids), respond) == Run(Now(), Plan(sec, pids[i..]), respond)
      {
        var step := StepsFor(sec, pids[i])[0];
        ghost var rest := Plan(sec, pids[i + 1..]);
        assert pids[i..][1..] == pids[i + 1..];
        assert Plan(sec, pids[i..]) == [step] + rest;
        assert ([step] + rest)[1..] == rest;
        o := Issue(step, respond);
        if o.Fail? {
          return;
        }
      }
      assert pids[|pids|..] == [];
      o := Pass;
    }

    /** `update_approval_settings`: POST the approval settings to every
        project in turn; only 201 is accepted. */
    method UpdateApprovalSettings(pids: seq<ProjectId>, respond: Responder) returns (o: Outcome)
      requires Valid()
      modifies this, printer
      ensures Valid()
      ensures approvalRules == old(approvalRules)
      ensures (Now(), o) == Run(old(Now()), Plan(ApprovalSettingsSection(args.approvalSettings), pids), respond)
      ensures var t := Execute(Plan(ApprovalSettingsSection(args.approvalSettings), pids), respond, |old(log)|);
        log == old(log) + t.writes && filed == old(filed) + t.records && o == t.outcome
    {
      RunExecute(Now(), Plan(ApprovalSettingsSection(args.approvalSettings), pids), respond);
      o := UpdateEach(ApprovalSettingsSection(args.approvalSettings), pids, respond);
    }

    /** `update_project_settings`: PUT the project settings to every project
        in turn; only 200 is accepted. */
    method UpdateProjectSettings(pids: seq<ProjectId>, respond: Responder) returns (o: Outcome)
      requires Valid()
      modifies this, printer
      ensures Valid()
      ensures approvalRules == old(approvalRules)
      ensures (Now(), o) == Run(old(Now()), Plan(ProjectSettingsSection(args.projectSettings), pids), respond)
      ensures var t := Execute(Plan(ProjectSettingsSection(args.projectSettings), pids), respond, |old(log)|);
        log == old(log) + t.writes && filed == old(filed) + t.records && o == t.outcome
    {
      RunExecute(Now(), Plan(ProjectSettingsSection(args.projectSettings), pids), respond);
      o := UpdateEach(ProjectSettingsSection(args.projectSettings), pids, respond);
    }

    /** `update_approval_rules`: per project, update the single default rule
        in place, create one when there is none, or raise when there are
        several, carrying the shared payload from project to project. */
    method UpdateApprovalRules(pids: seq<ProjectId>, remote: Remote, respond: Responder) returns (o: Outcome)
      requires Valid()
      modifies this, printer
      ensures Valid()
      ensures (Now(), o, approvalRules) == RulesRun(old(Now()), pids, remote, old(approvalRules), respond)
    {
      ghost var m0 := Now();
      ghost var payload := approvalRules;
      assert pids[0..] == pids;
      for i := 0 to |pids|
        invariant Valid()
        invariant RulesRun(m0, pids, remote, payload, respond) == RulesRun(Now(), pids[i..], remote, approvalRules, respond)
      {
        var p := pids[i];
        var entries := remote.approvalRules(p);
        assert pids[i..][1..] == pids[i + 1..];
        o := UpdateProjectRules(p, entries, respond);
        if o.Fail? {
          return;
        }
      }
      assert pids[|pids|..] == [];
      o := Pass;
    }

    /** The approval rules of one project, given its rule listing. */
    method UpdateProjectRules(p: ProjectId, entries: seq<RuleEntry>, respond: Responder) returns (o: Outcome)
      requires Valid()
      modifies this, printer
      ensures Valid()
      ensures approvalRules == NextPayload(entries, old(approvalRules))
      ensures (Now(), o) == Perform(old(Now()), RulesStep(p, entries, old(approvalRules)), respond)
    {
      var defaults := DefaultRules(entries);
      if |defaults| == 1 {
        approvalRules := approvalRules["id" := Num(defaults[0].id)];
        o := Issue(Write(p, ApprovalRulesName, Action(Put, ApprovalRule(p, defaults[0].id), RuleFields(approvalRules)), {200, 201}), respond);
      } else if |defaults| == 0 {
        o := Issue(Write(p, ApprovalRulesName, Action(Post, ApprovalRules(p), RuleFields(approvalRules)), {200, 201}), respond);
      } else {
        o := Outcome.Fail(TooManyDefaultRules(p));
      }
    }

    /** `update_protected_branches`: per project, and per candidate in
        configuration order, protect every candidate that qualifies against
        the project's branch and protection listings. */
    method UpdateProtectedBranches(pids: seq<ProjectId>, remote: Remote, respond: Responder) returns (o: Outcome)
      requires Valid()
      modifies this, printer
      ensures Valid()
      ensures approvalRules == old(approvalRules)
      ensures (Now(), o) == Run(old(Now()), Plan(ProtectedBranchesSection(remote, args.protectedBranches), pids), respond)
      ensures var t := Execute(Plan(ProtectedBranchesSection(remote, args.protectedBranches), pids), respond, |old(log)|);
        log == old(log) + t.writes && filed == old(filed) + t.records && o == t.outcome
    {
      ghost var m0 := Now();
      ghost var sec := ProtectedBranchesSection(remote, args.protectedBranches);
      RunExecute(m0, Plan(sec, pids), respond);
      assert pids[0..] == pids;
      for i := 0 to |pids|
        invariant Valid() && approvalRules == old(approvalRules)
        invariant Run(m0, Plan(sec, pids), respond) == Run(Now(), Plan(sec, pids[i..]), respond)
      {
        var p := pids[i];
        ghost var steps := CandidatesPlan(p, args.protectedBranches, remote.branches(p), remote.protectedBranches(p));
        ghost var later := Plan(sec, pids[i + 1..]);
        assert pids[i..][1..] == pids[i + 1..];
        assert Plan(sec, pids[i..]) == steps + later;
        RunAppend(Now(), steps, later, respond);
        o := ProtectProject(p, args.protectedBranches, remote.branches(p), remote.protectedBranches(p), respond);
        if o.Fail? {
          return;
        }
      }
      assert pids[|pids|..] == [];
      o := Pass;
    }

    /** The candidates of one project, in configuration order. */
    method ProtectProject(p: ProjectId, cs: seq<BranchRule>, branches: seq<string>, prot: seq<string>, respond: Responder)
      returns (o: Outcome)
      requires Valid()
      modifies this, printer
      ensures Valid()
      ensures approvalRules == old(approvalRules)
      ensures (Now(), o) == Run(old(Now()), CandidatesPlan(p, cs, branches, prot), respond)
    {
      ghost var m0 := Now();
      assert cs[0..] == cs;
      for j := 0 to |cs|
        invariant Valid() && approvalRules == old(approvalRules)
        invariant Run(m0, CandidatesPlan(p, cs, branches, prot), respond) == Run(Now(), CandidatesPlan(p, cs[j..], branches, prot), respond)
      {
        var c := cs[j];
        ghost var after := CandidatesPlan(p, cs[j + 1..], branches, prot);
        assert cs[j..][1..] == cs[j + 1..];
        assert CandidatesPlan(p, cs[j..], branches, prot) == CandidateSteps(p, c, branches, prot) + after;
        if Qualifies(c.name, branches, prot) {
          assert ([ProtectStep(p, c)] + after)[1..] == after;
          if c.pushAccessLevels == [] || c.mergeAccessLevels == [] {
            o := Outcome.Fail(MissingAccessLevel(p, c.name));
            return;
          }
          var target := ProtectBranch(p, c.name, c.pushAccessLevels[0].accessLevel, c.mergeAccessLevels[0].accessLevel,
                                      c.allowForcePush, c.codeOwnerApprovalRequired);
          o := Issue(Write(p, ProtectedBranchesName, Action(Post, target, Candidate(c)), {201}), respond);
          if o.Fail? {
            return;
          }
        } else {
          assert [] + after == after;
        }
      }
      assert cs[|cs|..] == [];
      o := Pass;
    }
  }
}

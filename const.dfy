/** The shapes and defaults of the configuration payloads, and the fixed
    numbers the tool uses. */
module Const {
  import opened GlobalUtils

  /** One access-level grant of a protected branch. */
  datatype AccessLevel = AccessLevel(accessLevel: int, description: string)

  /** One desired protected-branch rule of the configuration. */
  datatype BranchRule = BranchRule(
    name: string,
    pushAccessLevels: seq<AccessLevel>,
    mergeAccessLevels: seq<AccessLevel>,
    allowForcePush: bool,
    codeOwnerApprovalRequired: bool)

  /** GitLab's role table: access level to role name. */
  const Roles: map<int, string> := map[
    0 := "No access", 5 := "Minimal access", 10 := "Guest", 20 := "Reporter",
    30 := "Developer", 40 := "Maintainer", 50 := "Owner"]

  /** Page size of every listing request. */
  const PerPageCount: nat := 999

  /** Days without commits after which a branch counts as stale. */
  const StaleBranchDelta: int := 90

  /** The rule the defaults give to each protected branch: nobody may push,
      maintainers may merge, no force push, no code-owner approval. */
  function DefaultRule(name: string): BranchRule
  {
    BranchRule(name, [AccessLevel(0, "No one")], [AccessLevel(40, "Maintainers")], false, false)
  }

  /** The default `--protected_branches` value: `main`, `dev` and `master`. */
  const DefaultProtectedBranches: seq<BranchRule> :=
    [DefaultRule("main"), DefaultRule("dev"), DefaultRule("master")]

  /** The default `--approval_rules` value. */
  const DefaultApprovalRules: map<string, Json> :=
    map["name" := Str("Any name"), "rule_type" := Str("any_approver"), "approvals_required" := Num(1)]

  /** The default `--approval_settings` value. */
  const DefaultApprovalSettings: Json := Obj([
    Member("reset_approvals_on_push", Bool(false)),
    Member("selective_code_owner_removals", Bool(false)),
    Member("disable_overriding_approvers_per_merge_request", Bool(true)),
    Member("merge_requests_author_approval", Bool(false)),
    Member("merge_requests_disable_committers_approval", Bool(false))])

  /** The default `--project_settings` value. */
  const DefaultProjectSettings: Json := Obj([
    Member("allow_merge_on_skipped_pipeline", Bool(false)),
    Member("only_allow_merge_if_all_discussions_are_resolved", Bool(true)),
    Member("only_allow_merge_if_pipeline_succeeds", Bool(true)),
    Member("remove_source_branch_after_merge", Bool(true)),
    Member("squash_option", Str("default_on")),
    Member("merge_method", Str("ff"))])

  /** Every default protected-branch rule has a first push and a first merge
      level to send, and both are roles of the role table. */
  lemma DefaultLevelsUsable()
    ensures forall i :: 0 <= i < |DefaultProtectedBranches| ==>
      var c := DefaultProtectedBranches[i];
      |c.pushAccessLevels| > 0 && |c.mergeAccessLevels| > 0
      && c.pushAccessLevels[0].accessLevel in Roles && c.mergeAccessLevels[0].accessLevel in Roles
  {
  }
}

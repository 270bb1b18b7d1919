/** Values shared by every component: project identifiers, the replies the
    remote platform gives, the errors the tool raises and the result types
    that carry them instead of exceptions. */
module Types {
  import Strings

  /** A GitLab project id. Ids read from a listing are numbers and ids given
      on the command line are strings; both are carried as their decimal
      text, which is how they end up in URLs. */
  type ProjectId = string

  /** The answer to a write: its HTTP status and its raw text. */
  datatype Reply = Reply(status: int, text: string)

  /** The answer to a read: its HTTP status and its already-decoded body. */
  datatype Response<T> = Response(status: int, body: T)

  /** Every way a run can stop. */
  datatype Error =
    | UpdateFailed(project: ProjectId, status: int, text: string)
      // a write whose status is not in the accepted set
    | TooManyDefaultRules(project: ProjectId)
      // more than one `any_approver` approval rule on a project
    | UndesiredResponse(status: int, url: string)
      // a read whose response is not ok
    | MissingAccessLevel(project: ProjectId, branch: string)
      // a candidate protected branch whose push or merge level list is empty
    | NotAString
      // `to_bool` on a value that is neither a bool nor a string
    | InvalidBoolLiteral(value: string)
      // `to_bool` on a string other than true/false
    | MutuallyExclusive
      // both `namespace_paths` and `project_ids` given
    | SlugsWithoutNamespaces
      // `project_slugs` given without `namespace_paths`

  datatype Result<T> = Ok(value: T) | Err(error: Error)

  datatype Outcome = Pass | Fail(error: Error)

  datatype Option<T> = None | Some(value: T)

  /** The text of the "failed to update" error a rejected write raises. */
  function UpdateFailedMessage(project: ProjectId, status: int, text: string): (m: string)
    ensures "Project " + project + " failed to update. Reason: \n" <= m
    ensures |m| >= |text| && m[|m| - |text|..] == text
    ensures var c := Strings.IntToString(status);
      |m| >= |c| + 3 + |text| && m[|m| - |text| - 3 - |c|..|m| - |text| - 3] == c
    ensures |m| >= |text| + 3 && m[|m| - |text| - 3..|m| - |text|] == " - "
    ensures |m| == |"Project " + project + " failed to update. Reason: \n"|
      + |Strings.IntToString(status)| + 3 + |text|
  {
    var pre := "Project " + project + " failed to update. Reason: \n";
    var code := Strings.IntToString(status);
    var m := pre + code + " - " + text;
    assert m[|pre|..|pre| + |code|] == code;
    assert m[..|pre|] == pre;
    assert m[|pre| + |code|..|pre| + |code| + 3] == " - ";
    m
  }
}

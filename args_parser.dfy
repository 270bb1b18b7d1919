/** Normalisation and validation of the command-line arguments: `to_bool`,
    the comma-separated lists and the two guards on project selection. The
    argparse layer itself is not modelled; `parse_args` starts from the raw
    strings it would hand over and from the already-decoded JSON payloads. */
module ArgsParser {
  import opened Types
  import opened Strings
  import opened GlobalUtils
  import opened Const

  /** A value handed to `to_bool`: a bool, a string, or anything else. */
  datatype ArgValue = BoolValue(b: bool) | StrValue(s: string) | OtherValue

  /** `s` and `t` are equal once both are lower-cased. */
  predicate EqualsIgnoringCase(s: string, t: string)
  {
    |s| == |t| && forall i :: 0 <= i < |s| ==> LowerChar(s[i]) == LowerChar(t[i])
  }

  /** `to_bool`: a bool is returned as it is; a string is true or false when
      it spells `true` or `false` in any case; any other string, and any
      value that is not a string, is an error. */
  function ToBool(v: ArgValue): (r: Result<bool>)
    ensures v.BoolValue? ==> r == Ok(v.b)
    ensures v.OtherValue? ==> r == Err(NotAString)
    ensures v.StrValue? ==> (r == Ok(true) <==> EqualsIgnoringCase(v.s, "true"))
    ensures v.StrValue? ==> (r == Ok(false) <==> EqualsIgnoringCase(v.s, "false"))
    ensures v.StrValue? && r.Err? ==> r.error == InvalidBoolLiteral(v.s)
  {
    match v
    case BoolValue(b) => Ok(b)
    case OtherValue => Err(NotAString)
    case StrValue(s) =>
      var lower := Lower(s);
      if lower == "true" then Ok(true)
      else if lower == "false" then Ok(false)
      else Err(InvalidBoolLiteral(s))
  }

  /** `list(filter(None, s.split(",")))`: the comma-separated pieces of `s`,
      empty pieces dropped. No piece is empty or holds a comma, the empty
      string gives no pieces, and the pieces together hold exactly the
      characters of `s` other than the commas, in order. */
  function CommaList(s: string): (r: seq<string>)
    ensures forall i :: 0 <= i < |r| ==> r[i] != "" && ',' !in r[i]
    ensures s == "" ==> r == []
    ensures Concat(r) == Remove(s, ',')
  {
    var pieces := Split(s, ',');
    ConcatNonEmpty(pieces);
    ConcatSplit(s, ',');
    NonEmpty(pieces)
  }

  /** Comma-free pieces written out comma-separated normalise to the same
      pieces with the empty ones dropped, so `"a,,b"` gives `["a", "b"]` and
      `",a"` and `"a,"` give `["a"]`. Every string is such a joining of the
      pieces it splits into (`JoinSplit`), so this fixes the normalisation of
      every input. */
  lemma CommaListOfJoin(xs: seq<string>)
    requires forall i :: 0 <= i < |xs| ==> ',' !in xs[i]
    ensures CommaList(Join(xs, ',')) == NonEmpty(xs)
  {
    if xs != [] {
      SplitJoin(xs, ',');
    }
  }

  /** The normalisation of `"a,,b"`: the empty piece between the commas is
      dropped. */
  lemma CommaListExample()
    ensures CommaList("a,,b") == ["a", "b"]
  {
    CommaListOfJoin(["a", "", "b"]);
    assert Join(["a", "", "b"], ',') == "a,,b" by {
      assert Join(["b"], ',') == "b";
      assert ["a", "", "b"][1..] == ["", "b"];
      assert ["", "b"][1..] == ["b"];
    }
    NonEmptyAppend(["a", ""], ["b"]);
    NonEmptyAppend(["a"], [""]);
    NonEmptySingle("a");
    NonEmptySingle("");
    NonEmptySingle("b");
    assert ["a", "", "b"] == ["a", ""] + ["b"];
    assert ["a", ""] == ["a"] + [""];
  }

  /** The command line as argparse hands it over. */
  datatype RawArgs = RawArgs(
    baseUrl: string,
    token: string,
    debug: string,
    namespacePaths: string,
    projectIds: string,
    projectSlugs: string,
    approvalSettings: Json,
    approvalRules: map<string, Json>,
    protectedBranches: seq<BranchRule>,
    projectSettings: Json,
    pushRuleRegex: string)

  /** The `args` dictionary the rest of the tool reads. */
  datatype Args = Args(
    baseUrl: string,
    token: string,
    debug: bool,
    namespacePaths: seq<string>,
    projectIds: seq<string>,
    projectSlugs: seq<string>,
    approvalSettings: Json,
    approvalRules: map<string, Json>,
    protectedBranches: seq<BranchRule>,
    projectSettings: Json,
    pushRuleRegex: string)

  /** Path of GitLab's REST API under the instance URL. */
  const ApiSuffix: string := "/api/v4"

  /** The selection the guards let through: never both namespaces and
      explicit ids, and slugs only together with namespaces. */
  predicate GuardsPass(namespacePaths: seq<string>, projectIds: seq<string>, projectSlugs: seq<string>)
  {
    !(namespacePaths != [] && projectIds != [])
    && (projectSlugs != [] ==> namespacePaths != [])
  }

  predicate ValidSelection(a: Args)
  {
    GuardsPass(a.namespacePaths, a.projectIds, a.projectSlugs)
  }

  /** `parse_args` after argparse: builds `args` key by key (an invalid debug
      flag stops it there), then applies the two selection guards in order. */
  method ParseArgs(raw: RawArgs) returns (r: Result<Args>)
    ensures ToBool(StrValue(raw.debug)).Err? ==> r == Err(ToBool(StrValue(raw.debug)).error)
    ensures ToBool(StrValue(raw.debug)).Ok? ==>
      var ns, ids, slugs := CommaList(raw.namespacePaths), CommaList(raw.projectIds), CommaList(raw.projectSlugs);
      && (ns != [] && ids != [] ==> r == Err(MutuallyExclusive))
      && (!(ns != [] && ids != []) && slugs != [] && ns == [] ==> r == Err(SlugsWithoutNamespaces))
    ensures r.Ok? <==>
      (ToBool(StrValue(raw.debug)).Ok?
       && GuardsPass(CommaList(raw.namespacePaths), CommaList(raw.projectIds), CommaList(raw.projectSlugs)))
    ensures r.Ok? ==> ValidSelection(r.value)
    ensures r.Ok? ==>
      && r.value.baseUrl == raw.baseUrl + ApiSuffix
      && r.value.token == raw.token
      && r.value.debug == ToBool(StrValue(raw.debug)).value
      && r.value.namespacePaths == CommaList(raw.namespacePaths)
      && r.value.projectIds == CommaList(raw.projectIds)
      && r.value.projectSlugs == CommaList(raw.projectSlugs)
      && r.value.approvalSettings == raw.approvalSettings
      && r.value.approvalRules == raw.approvalRules
      && r.value.protectedBranches == raw.protectedBranches
      && r.value.projectSettings == raw.projectSettings
      && r.value.pushRuleRegex == raw.pushRuleRegex
  {
    var baseUrl := raw.baseUrl + ApiSuffix;
    var debug := ToBool(StrValue(raw.debug));
    if debug.Err? {
      return Err(debug.error);
    }
    var namespacePaths := CommaList(raw.namespacePaths);
    var projectIds := CommaList(raw.projectIds);
    var projectSlugs := CommaList(raw.projectSlugs);
    var args := Args(baseUrl, raw.token, debug.value, namespacePaths, projectIds, projectSlugs,
                     raw.approvalSettings, raw.approvalRules, raw.protectedBranches,
                     raw.projectSettings, raw.pushRuleRegex);
    if namespacePaths != [] && projectIds != [] {
      return Err(MutuallyExclusive);
    }
    if projectSlugs != [] && namespacePaths == [] {
      return Err(SlugsWithoutNamespaces);
    }
    return Ok(args);
  }
}

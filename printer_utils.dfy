/** The outcome recorder: the `Printer` that files every accepted reply under
    its project and section, newest text first, and renders them in the
    order they were first filed; plus the listing read `response_json`. */
module PrinterUtils {
  import opened Types
  import opened Strings
  import opened Const

  /** One accepted reply as `dump_response` files it. */
  datatype Record = Record(project: ProjectId, section: string, text: string)

  /** The shape of `Printer.updated`: project, then section, then text. */
  type Outcomes = map<ProjectId, map<string, string>>

  predicate Has(m: Outcomes, p: ProjectId, s: string)
  {
    p in m && s in m[p]
  }

  /** The status codes `dump_response` accepts when the caller names none. */
  const DefaultDesiredStates: set<int> := {200, 201, 204}

  /** Filing one accepted reply: the target entry gets the new text, in front
      of the text already there, separated by a newline. */
  function File(m: Outcomes, r: Record): Outcomes
  {
    var inner := if r.project in m then m[r.project] else map[];
    var text := if r.section in inner then r.text + "\n" + inner[r.section] else r.text;
    m[r.project := inner[r.section := text]]
  }

  /** What filing changes: the target entry now exists and holds the new text
      in front of the old one; no other entry changes, and no project other
      than the target's appears. */
  lemma FileSpec(m: Outcomes, r: Record)
    ensures File(m, r).Keys == m.Keys + {r.project}
    ensures Has(File(m, r), r.project, r.section)
    ensures File(m, r)[r.project][r.section] ==
      if Has(m, r.project, r.section) then r.text + "\n" + m[r.project][r.section] else r.text
    ensures r.project in m ==> File(m, r)[r.project].Keys == m[r.project].Keys + {r.section}
    ensures r.project !in m ==> File(m, r)[r.project].Keys == {r.section}
    ensures forall p, s :: (p != r.project || s != r.section) ==>
      (Has(File(m, r), p, s) <==> Has(m, p, s)) && (Has(m, p, s) ==> File(m, r)[p][s] == m[p][s])
  {
  }

  /** The outcome map after filing `rs` one by one into an empty map. */
  function Stored(rs: seq<Record>): Outcomes
    decreases |rs|
  {
    if rs == [] then map[] else File(Stored(rs[..|rs| - 1]), rs[|rs| - 1])
  }

  /** The projects of `rs`, in filing order. */
  function ProjectsOf(rs: seq<Record>): (ps: seq<ProjectId>)
    ensures |ps| == |rs| && forall i :: 0 <= i < |rs| ==> ps[i] == rs[i].project
  {
    seq(|rs|, i requires 0 <= i < |rs| => rs[i].project)
  }

  /** The sections filed for project `p`, in filing order. */
  function SectionsOf(rs: seq<Record>, p: ProjectId): seq<string>
    decreases |rs|
  {
    if rs == [] then []
    else SectionsOf(rs[..|rs| - 1], p) + (if rs[|rs| - 1].project == p then [rs[|rs| - 1].section] else [])
  }

  /** The texts filed for project `p` and section `s`, oldest first. */
  function TextsOf(rs: seq<Record>, p: ProjectId, s: string): seq<string>
    decreases |rs|
  {
    if rs == [] then []
    else
      var r := rs[|rs| - 1];
      TextsOf(rs[..|rs| - 1], p, s) + (if r.project == p && r.section == s then [r.text] else [])
  }

  function Reversed<T>(xs: seq<T>): seq<T>
    decreases |xs|
  {
    if xs == [] then [] else [xs[|xs| - 1]] + Reversed(xs[..|xs| - 1])
  }

  /** Texts given oldest first, shown newest first, one per line. */
  function NewestFirst(ts: seq<string>): string
  {
    Join(Reversed(ts), '\n')
  }

  predicate Distinct<T(==)>(xs: seq<T>)
  {
    forall i, j :: 0 <= i < j < |xs| ==> xs[i] != xs[j]
  }

  /** The first occurrences of the elements of `xs`, in order: the key order
      of a dictionary into which `xs` is inserted one by one. */
  function Dedup<T(==,!new)>(xs: seq<T>): (r: seq<T>)
    ensures forall x :: x in r <==> x in xs
    ensures Distinct(r)
    decreases |xs|
  {
    if xs == [] then []
    else
      var d := Dedup(xs[..|xs| - 1]);
      var x := xs[|xs| - 1];
      assert xs == xs[..|xs| - 1] + [x];
      if x in d then d else d + [x]
  }

  /** A project that was never filed has no sections. */
  lemma {:induction false} SectionsOfAbsent(rs: seq<Record>, p: ProjectId)
    requires forall i :: 0 <= i < |rs| ==> rs[i].project != p
    ensures SectionsOf(rs, p) == []
    decreases |rs|
  {
    if rs != [] {
      SectionsOfAbsent(rs[..|rs| - 1], p);
    }
  }

  /** Keys of the stored outcomes are exactly the projects and sections filed. */
  lemma {:induction false} StoredKeys(rs: seq<Record>)
    ensures forall p :: p in Stored(rs) <==> p in ProjectsOf(rs)
    ensures forall p, s :: Has(Stored(rs), p, s) <==> s in SectionsOf(rs, p)
    decreases |rs|
  {
    if rs != [] {
      var init := rs[..|rs| - 1];
      var r := rs[|rs| - 1];
      StoredKeys(init);
      FileSpec(Stored(init), r);
      assert ProjectsOf(rs) == ProjectsOf(init) + [r.project];
      forall p, s ensures Has(Stored(rs), p, s) <==> s in SectionsOf(rs, p) {
        if p == r.project && s == r.section {
        } else if p == r.project {
          assert SectionsOf(rs, p) == SectionsOf(init, p) + [r.section];
        } else {
          assert SectionsOf(rs, p) == SectionsOf(init, p);
        }
      }
    }
  }

  /** After any number of filings, the text stored for a project and section
      is every text filed for it, newest first, one per line; and an entry
      exists exactly when something was filed for it. */
  lemma {:induction false} StoredNewestFirst(rs: seq<Record>, p: ProjectId, s: string)
    ensures Has(Stored(rs), p, s) <==> TextsOf(rs, p, s) != []
    ensures Has(Stored(rs), p, s) ==> Stored(rs)[p][s] == NewestFirst(TextsOf(rs, p, s))
    decreases |rs|
  {
    if rs != [] {
      var init := rs[..|rs| - 1];
      var r := rs[|rs| - 1];
      StoredNewestFirst(init, p, s);
      FileSpec(Stored(init), r);
      if r.project == p && r.section == s {
        var ts := TextsOf(init, p, s);
        assert TextsOf(rs, p, s) == ts + [r.text];
        assert Reversed(ts + [r.text]) == [r.text] + Reversed(ts) by {
          assert (ts + [r.text])[..|ts|] == ts;
        }
        if ts != [] {
          var rev := Reversed(ts);
          assert |rev| >= 1;
          assert ([r.text] + rev)[1..] == rev;
          assert NewestFirst(ts + [r.text]) == r.text + "\n" + NewestFirst(ts);
        } else {
          assert Reversed(ts) == [];
          assert NewestFirst(ts + [r.text]) == r.text;
        }
      } else {
        assert TextsOf(rs, p, s) == TextsOf(init, p, s);
      }
    }
  }

  /** What `print_response` shows for one project: its header, then each of
      its sections with the stored text. */
  datatype Shown = Shown(section: string, text: string)
  datatype ProjectBlock = ProjectBlock(project: ProjectId, sections: seq<Shown>)

  /** The printer's whole state: the outcome map and the insertion orders of
      its keys, which Python's dictionaries keep and Dafny's maps do not. */
  datatype Ledger = Ledger(updated: Outcomes, projectOrder: seq<ProjectId>, sectionOrder: map<ProjectId, seq<string>>)

  const EmptyLedger: Ledger := Ledger(map[], [], map[])

  /** The key orders list every key of the outcome map, once each. */
  ghost predicate Consistent(l: Ledger)
  {
    && Distinct(l.projectOrder)
    && (forall p :: p in l.projectOrder <==> p in l.updated)
    && l.sectionOrder.Keys == l.updated.Keys
    && (forall p :: p in l.sectionOrder ==>
          Distinct(l.sectionOrder[p]) && forall s :: s in l.sectionOrder[p] <==> s in l.updated[p])
  }

  /** Filing one record into the ledger: the map as `File` says; a project
      or section seen for the first time joins the end of its order. */
  function Step(l: Ledger, r: Record): Ledger
  {
    var known := if r.project in l.sectionOrder then l.sectionOrder[r.project] else [];
    Ledger(
      File(l.updated, r),
      if r.project in l.updated then l.projectOrder else l.projectOrder + [r.project],
      l.sectionOrder[r.project := known + (if Has(l.updated, r.project, r.section) then [] else [r.section])])
  }

  /** Filing `rs` one by one. */
  function FileAll(l: Ledger, rs: seq<Record>): Ledger
    decreases |rs|
  {
    if rs == [] then l else Step(FileAll(l, rs[..|rs| - 1]), rs[|rs| - 1])
  }

  /** Filing a concatenation is filing one part, then the other. */
  lemma {:induction false} FileAllAppend(l: Ledger, a: seq<Record>, b: seq<Record>)
    ensures FileAll(l, a + b) == FileAll(FileAll(l, a), b)
    decreases |b|
  {
    if b == [] {
      assert a + b == a;
    } else {
      assert (a + b)[..|a + b| - 1] == a + b[..|b| - 1];
      FileAllAppend(l, a, b[..|b| - 1]);
    }
  }

  /** Filing a record and then more records. */
  lemma FileAllCons(l: Ledger, r: Record, rs: seq<Record>)
    ensures FileAll(l, [r] + rs) == FileAll(Step(l, r), rs)
  {
    FileAllAppend(l, [r], rs);
    assert [r][..0] == [];
  }

  /** Filing keeps the key orders in step with the map. */
  lemma StepConsistent(l: Ledger, r: Record)
    requires Consistent(l)
    ensures Consistent(Step(l, r))
  {
    var l' := Step(l, r);
    FileSpec(l.updated, r);
    forall p | p in l'.sectionOrder
      ensures Distinct(l'.sectionOrder[p]) && forall s :: s in l'.sectionOrder[p] <==> s in l'.updated[p]
    {
      if p == r.project && p !in l.updated {
        assert l'.sectionOrder[p] == [r.section];
      }
    }
  }

  /** Filing any number of records keeps the key orders in step with the map. */
  lemma {:induction false} FileAllConsistent(l: Ledger, rs: seq<Record>)
    requires Consistent(l)
    ensures Consistent(FileAll(l, rs))
    decreases |rs|
  {
    if rs != [] {
      FileAllConsistent(l, rs[..|rs| - 1]);
      StepConsistent(FileAll(l, rs[..|rs| - 1]), rs[|rs| - 1]);
    }
  }

  /** Filing into an empty ledger gives the map `Stored` describes. */
  lemma {:induction false} FileAllStored(rs: seq<Record>)
    ensures FileAll(EmptyLedger, rs).updated == Stored(rs)
    decreases |rs|
  {
    if rs != [] {
      FileAllStored(rs[..|rs| - 1]);
    }
  }

  /** Filing into an empty ledger lists the projects in order of first filing. */
  lemma {:induction false} FileAllProjectOrder(rs: seq<Record>)
    ensures FileAll(EmptyLedger, rs).projectOrder == Dedup(ProjectsOf(rs))
    decreases |rs|
  {
    if rs != [] {
      var init := rs[..|rs| - 1];
      var r := rs[|rs| - 1];
      FileAllProjectOrder(init);
      FileAllStored(init);
      StoredKeys(init);
      assert ProjectsOf(rs) == ProjectsOf(init) + [r.project];
      assert ProjectsOf(rs)[..|init|] == ProjectsOf(init);
    }
  }

  /** Filing into an empty ledger lists each project's sections in order of
      first filing. */
  lemma {:induction false} FileAllSectionOrder(rs: seq<Record>)
    ensures FileAll(EmptyLedger, rs).sectionOrder.Keys == Stored(rs).Keys
    ensures forall p :: p in FileAll(EmptyLedger, rs).sectionOrder ==>
      FileAll(EmptyLedger, rs).sectionOrder[p] == Dedup(SectionsOf(rs, p))
    decreases |rs|
  {
    if rs != [] {
      var init := rs[..|rs| - 1];
      var r := rs[|rs| - 1];
      FileAllSectionOrder(init);
      FileAllStored(init);
      var l := FileAll(EmptyLedger, init);
      assert rs == init + [r];
      forall p | p in Step(l, r).sectionOrder
        ensures Step(l, r).sectionOrder[p] == Dedup(SectionsOf(rs, p))
      {
        SectionOrderStep(l, init, r, p);
      }
    }
  }

  /** One filing step of `FileAllSectionOrder`, for one project. */
  lemma SectionOrderStep(l: Ledger, init: seq<Record>, r: Record, p: ProjectId)
    requires l.updated == Stored(init) && l.sectionOrder.Keys == l.updated.Keys
    requires forall q :: q in l.sectionOrder ==> l.sectionOrder[q] == Dedup(SectionsOf(init, q))
    ensures p in Step(l, r).sectionOrder ==> Step(l, r).sectionOrder[p] == Dedup(SectionsOf(init + [r], p))
  {
    var rs := init + [r];
    assert rs[..|rs| - 1] == init && rs[|rs| - 1] == r;
    if p == r.project {
      SectionOrderFiled(l, init, r);
    } else {
      assert SectionsOf(rs, p) == SectionsOf(init, p);
    }
  }

  /** The filed project's sections gain the filed section if it is new. */
  lemma SectionOrderFiled(l: Ledger, init: seq<Record>, r: Record)
    requires l.updated == Stored(init) && l.sectionOrder.Keys == l.updated.Keys
    requires r.project in l.sectionOrder ==> l.sectionOrder[r.project] == Dedup(SectionsOf(init, r.project))
    ensures Step(l, r).sectionOrder[r.project] == Dedup(SectionsOf(init, r.project) + [r.section])
  {
    var old_ss := SectionsOf(init, r.project);
    StoredKeys(init);
    assert (old_ss + [r.section])[..|old_ss|] == old_ss;
    if r.project !in l.updated {
      assert forall i :: 0 <= i < |init| ==> ProjectsOf(init)[i] == init[i].project;
      SectionsOfAbsent(init, r.project);
      assert [] + [r.section] == [r.section];
      assert Dedup([r.section]) == [r.section] by {
        assert [r.section][..0] == [];
      }
    }
  }

  /** The recorder of `printer_utils`. */
  class Printer {
    var updated: Outcomes
    var projectOrder: seq<ProjectId>
    var sectionOrder: map<ProjectId, seq<string>>

    function State(): Ledger
      reads this
    {
      Ledger(updated, projectOrder, sectionOrder)
    }

    ghost predicate Valid()
      reads this
    {
      Consistent(State())
    }

    constructor ()
      ensures Valid() && State() == EmptyLedger
    {
      updated := map[];
      projectOrder := [];
      sectionOrder := map[];
    }

    /** `dump_response`: an accepted reply is filed under its project and
        section (in front of what is there); any other status is the
        "failed to update" error and changes nothing. */
    method DumpResponse(reply: Reply, projectId: ProjectId, configName: string,
                        desiredStates: set<int> := DefaultDesiredStates)
      returns (o: Outcome)
      modifies this
      ensures old(Valid()) ==> Valid()
      ensures reply.status in desiredStates ==>
        o == Pass && State() == Step(old(State()), Record(projectId, configName, reply.text))
      ensures reply.status !in desiredStates ==>
        o == Fail(UpdateFailed(projectId, reply.status, reply.text)) && State() == old(State())
    {
      if reply.status in desiredStates {
        ghost var before := State();
        ghost var next := Step(before, Record(projectId, configName, reply.text));
        var inner := if projectId in updated then updated[projectId] else map[];
        var text := reply.text;
        if configName in inner {
          text := text + "\n" + inner[configName];
        }
        var sections := if projectId in sectionOrder then sectionOrder[projectId] else [];
        if configName !in inner {
          sections := sections + [configName];
        }
        if projectId !in updated {
          projectOrder := projectOrder + [projectId];
        }
        assert sections == next.sectionOrder[projectId];
        sectionOrder := sectionOrder[projectId := sections];
        updated := updated[projectId := inner[configName := text]];
        assert updated == next.updated;
        assert projectOrder == next.projectOrder;
        assert sectionOrder == next.sectionOrder;
        assert State() == next;
        if Consistent(before) {
          StepConsistent(before, Record(projectId, configName, reply.text));
        }
        o := Pass;
      } else {
        o := Fail(UpdateFailed(projectId, reply.status, reply.text));
      }
    }

    /** `print_response`: one block per project, in the order projects were
        first filed, each listing its sections in the order they were first
        filed (the order `sectionOrder` keeps) with their stored texts. So every stored entry is shown exactly
        once, with its stored text, and nothing else is shown. */
    method PrintResponse() returns (out: seq<ProjectBlock>)
      requires Valid()
      ensures |out| == |projectOrder|
      ensures forall i :: 0 <= i < |out| ==> out[i].project == projectOrder[i]
      ensures forall i :: 0 <= i < |out| ==>
        |out[i].sections| == |sectionOrder[projectOrder[i]]|
        && forall j :: 0 <= j < |out[i].sections| ==> out[i].sections[j].section == sectionOrder[projectOrder[i]][j]
      ensures forall i, j :: 0 <= i < |out| && 0 <= j < |out[i].sections| ==>
        var p := out[i].project;
        Has(updated, p, out[i].sections[j].section) && out[i].sections[j].text == updated[p][out[i].sections[j].section]
      ensures forall p, s :: Has(updated, p, s) ==>
        exists i, j :: 0 <= i < |out| && 0 <= j < |out[i].sections| && out[i].project == p && out[i].sections[j] == Shown(s, updated[p][s])
      ensures forall i, k :: 0 <= i < k < |out| ==> out[i].project != out[k].project
      ensures forall i, j, k :: 0 <= i < |out| && 0 <= j < k < |out[i].sections| ==>
        out[i].sections[j].section != out[i].sections[k].section
    {
      out := [];
      for i := 0 to |projectOrder|
        invariant |out| == i
        invariant forall n :: 0 <= n < i ==> out[n].project == projectOrder[n]
        invariant forall n :: 0 <= n < i ==> |out[n].sections| == |sectionOrder[projectOrder[n]]|
        invariant forall n, j :: 0 <= n < i && 0 <= j < |out[n].sections| ==>
          out[n].sections[j] == Shown(sectionOrder[projectOrder[n]][j], updated[projectOrder[n]][sectionOrder[projectOrder[n]][j]])
      {
        var p := projectOrder[i];
        var sections := sectionOrder[p];
        var shown: seq<Shown> := [];
        for j := 0 to |sections|
          invariant |shown| == j
          invariant forall k :: 0 <= k < j ==> shown[k] == Shown(sections[k], updated[p][sections[k]])
        {
          shown := shown + [Shown(sections[j], updated[p][sections[j]])];
        }
        out := out + [ProjectBlock(p, shown)];
      }
      forall p, s | Has(updated, p, s)
        ensures exists i, j :: 0 <= i < |out| && 0 <= j < |out[i].sections| && out[i].project == p && out[i].sections[j] == Shown(s, updated[p][s])
      {
        var i :| 0 <= i < |projectOrder| && projectOrder[i] == p;
        var j :| 0 <= j < |sectionOrder[p]| && sectionOrder[p][j] == s;
        assert out[i].sections[j] == Shown(s, updated[p][s]);
      }
    }
  }

  /** The query every listing read carries: one page of 999 entries. */
  const PageQuery: string := "?per_page=" + NatToString(PerPageCount) + "&page=1"

  /** The page query asks for 999 entries of page 1. */
  lemma PageQueryText()
    ensures PageQuery == "?per_page=999&page=1"
  {
    assert NatToString(9) == "9";
    assert NatToString(99) == NatToString(9) + [Digit(9)] == "99";
    assert NatToString(999) == NatToString(99) + [Digit(9)] == "999";
  }

  /** requests' `Response.ok`: false exactly for the 4xx and 5xx statuses. */
  predicate IsOk(status: int)
  {
    !(400 <= status < 600)
  }

  /** `response_json(args, path)`: one GET of `base_url/path` with the page
      query; the decoded body when the response is ok, otherwise the
      "undesired response" error naming the status and the URL. */
  function ResponseJson<T>(baseUrl: string, path: string, get: string -> Response<T>): (r: Result<T>)
    ensures var url := baseUrl + "/" + path + "?per_page=999&page=1";
      && (r.Ok? <==> IsOk(get(url).status))
      && (r.Ok? ==> r.value == get(url).body)
      && (r.Err? ==> r.error == UndesiredResponse(get(url).status, url))
  {
    PageQueryText();
    var url := baseUrl + "/" + path + PageQuery;
    var response := get(url);
    if !IsOk(response.status) then Err(UndesiredResponse(response.status, url)) else Ok(response.body)
  }
}

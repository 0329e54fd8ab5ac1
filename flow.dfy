/**
 * The journey flow: the fixed label-to-page map of the question list, the flow built
 * from the labels a user selected (the loop of the op-question-list handler), and the
 * resolution of the next page from the stored flow and step (getNextAllowedPage).
 */
module Flow {
  import opened Wrappers
  import opened Redirect

  /** One entry of the question-list map: a section label and the page that asks it. */
  datatype Entry = Entry(section: string, path: string)

  /** redirectMap, in its key order, which is the canonical order of every flow. */
  const RedirectMap: seq<Entry> := [
    Entry("Name", OpName),
    Entry("Date of birth", OpDob),
    Entry("Address", OpAddress1),
    Entry("Phone number", OpPhone),
    Entry("National Insurance number", OpNino),
    Entry("Other information", OpAnythingElse)
  ]

  /** The page an entry contributes to the flow: one path when it is selected and allowlisted. */
  function Contribution(e: Entry, selected: seq<string>): seq<string> {
    if e.section in selected && e.path in AllowedPaths then [e.path] else []
  }

  /**
   * The flow built by walking `entries` in order and keeping the path of every
   * selected label whose path is allowlisted. Defined on the last entry so that it
   * grows as the loop in BuildRequiredJourneyFlow does.
   */
  function FlowOf(entries: seq<Entry>, selected: seq<string>): (flow: seq<string>)
    ensures |flow| <= |entries|
    ensures forall p :: p in flow ==> p in AllowedPaths
  {
    if entries == [] then []
    else FlowOf(entries[..|entries| - 1], selected) + Contribution(entries[|entries| - 1], selected)
  }

  /** requiredJourneyFlow for the labels of op-details. */
  function RequiredJourneyFlow(selected: seq<string>): (flow: seq<string>)
    ensures |flow| <= |RedirectMap|
    ensures forall p :: p in flow ==> p in AllowedPaths
  {
    FlowOf(RedirectMap, selected)
  }

  /** The loop of the op-question-list handler, over the map's keys in order. */
  method BuildRequiredJourneyFlow(selectedKeys: seq<string>) returns (flow: seq<string>)
    ensures flow == RequiredJourneyFlow(selectedKeys)
  {
    flow := [];
    for i := 0 to |RedirectMap|
      invariant flow == FlowOf(RedirectMap[..i], selectedKeys)
    {
      var key := RedirectMap[i].section;
      if key in selectedKeys {
        var path := RedirectMap[i].path;
        if path in AllowedPaths {
          flow := flow + [path];
        }
      }
      assert RedirectMap[..i + 1][..i] == RedirectMap[..i];
    }
    assert RedirectMap[..|RedirectMap|] == RedirectMap;
  }

  /**
   * getNextAllowedPage: the flow entry at the step index when there is one and it is
   * allowlisted, otherwise check-your-answers. An absent step reads as 0 and an absent
   * flow as empty. The answer is always allowlisted.
   */
  function NextAllowedPage(step: Option<nat>, flow: Option<seq<string>>): (page: string)
    ensures page in AllowedPaths
    ensures page != CheckYourAnswers ==>
      step.GetOr(0) < |flow.GetOr([])| && page == flow.GetOr([])[step.GetOr(0)]
    ensures step.GetOr(0) < |flow.GetOr([])| && flow.GetOr([])[step.GetOr(0)] in AllowedPaths ==>
      page == flow.GetOr([])[step.GetOr(0)]
    ensures step.GetOr(0) >= |flow.GetOr([])| ==> page == CheckYourAnswers
  {
    var f := flow.GetOr([]);
    var i := step.GetOr(0);
    if i < |f| && f[i] in AllowedPaths then f[i] else CheckYourAnswers
  }

  /** The labels redirectMap knows. */
  function Sections(): set<string> {
    set k | 0 <= k < |RedirectMap| :: RedirectMap[k].section
  }

  /** The position of the first entry of `entries` whose path is `p` (|entries| when none is). */
  function PositionIn(entries: seq<Entry>, p: string): (k: nat)
    ensures k <= |entries|
    ensures k < |entries| ==> entries[k].path == p
    ensures forall j :: 0 <= j < k ==> entries[j].path != p
  {
    if entries == [] then 0
    else if entries[0].path == p then 0
    else 1 + PositionIn(entries[1..], p)
  }

  /** The canonical rank of a page: its position in redirectMap. */
  function Rank(p: string): nat {
    PositionIn(RedirectMap, p)
  }

  /** The pages of a flow appear in strictly increasing canonical rank. */
  ghost predicate InCanonicalOrder(flow: seq<string>) {
    forall i, j :: 0 <= i < j < |flow| ==> Rank(flow[i]) < Rank(flow[j])
  }

  /** Every page of redirectMap is allowlisted and no two sections share a page. */
  lemma RedirectMapWellFormed()
    ensures forall k :: 0 <= k < |RedirectMap| ==> RedirectMap[k].path in AllowedPaths
    ensures forall i, j :: 0 <= i < j < |RedirectMap| ==> RedirectMap[i].path != RedirectMap[j].path
  {
    var names := ["op-name", "op-dob", "op-address-1", "op-phone", "op-nino", "op-anything-else"];
    assert forall k :: 0 <= k < |RedirectMap| ==> RedirectMap[k].path == JourneyRoot + names[k];
    forall i, j | 0 <= i < j < |RedirectMap| ensures RedirectMap[i].path != RedirectMap[j].path {
      if RedirectMap[i].path == RedirectMap[j].path {
        UnderRootInjective(names[i], names[j]);
      }
    }
  }

  /** The rank of the page of entry k is k. */
  lemma RankOfEntry(k: nat)
    requires k < |RedirectMap|
    ensures Rank(RedirectMap[k].path) == k
  {
    RedirectMapWellFormed();
  }

  /** A page is in the flow built from `entries` exactly when some selected entry with an allowlisted page names it. */
  lemma {:induction false} FlowOfMembership(entries: seq<Entry>, selected: seq<string>, p: string)
    ensures p in FlowOf(entries, selected) <==>
      exists k :: 0 <= k < |entries| && entries[k].section in selected
                  && entries[k].path in AllowedPaths && entries[k].path == p
  {
    if entries != [] {
      var n := |entries| - 1;
      var prefix := entries[..n];
      var added := Contribution(entries[n], selected);
      assert FlowOf(entries, selected) == FlowOf(prefix, selected) + added;
      assert forall k :: 0 <= k < n ==> prefix[k] == entries[k];
      FlowOfMembership(prefix, selected, p);
      if p in added {
        assert entries[n].section in selected && entries[n].path in AllowedPaths && entries[n].path == p;
      }
      if k :| 0 <= k < |entries| && entries[k].section in selected
              && entries[k].path in AllowedPaths && entries[k].path == p {
        if k == n {
          assert p in added;
        } else {
          assert prefix[k].section in selected && prefix[k].path in AllowedPaths && prefix[k].path == p;
        }
      }
    }
  }

  /**
   * The built flow holds the page of a section of redirectMap exactly when the user
   * selected that section, and holds no page of anything else: unknown labels drop out.
   */
  lemma RequiredJourneyFlowContents(selected: seq<string>)
    ensures forall k :: 0 <= k < |RedirectMap| ==>
      (RedirectMap[k].path in RequiredJourneyFlow(selected) <==> RedirectMap[k].section in selected)
    ensures forall p :: p in RequiredJourneyFlow(selected) ==>
      exists k :: 0 <= k < |RedirectMap| && RedirectMap[k].path == p && RedirectMap[k].section in selected
  {
    RedirectMapWellFormed();
    forall k | 0 <= k < |RedirectMap|
      ensures RedirectMap[k].path in RequiredJourneyFlow(selected) <==> RedirectMap[k].section in selected
    {
      FlowOfMembership(RedirectMap, selected, RedirectMap[k].path);
    }
    forall p | p in RequiredJourneyFlow(selected)
      ensures exists k :: 0 <= k < |RedirectMap| && RedirectMap[k].path == p && RedirectMap[k].section in selected
    {
      FlowOfMembership(RedirectMap, selected, p);
    }
  }

  /** The flow built from the first n entries of redirectMap ranks below n and in increasing rank. */
  lemma {:induction false} PrefixFlowInCanonicalOrder(selected: seq<string>, n: nat)
    requires n <= |RedirectMap|
    ensures forall p :: p in FlowOf(RedirectMap[..n], selected) ==> Rank(p) < n
    ensures InCanonicalOrder(FlowOf(RedirectMap[..n], selected))
  {
    if n > 0 {
      var prefix := RedirectMap[..n];
      assert prefix[..n - 1] == RedirectMap[..n - 1];
      var earlier := FlowOf(RedirectMap[..n - 1], selected);
      var added := Contribution(RedirectMap[n - 1], selected);
      assert FlowOf(prefix, selected) == earlier + added;
      PrefixFlowInCanonicalOrder(selected, n - 1);
      RankOfEntry(n - 1);
      var flow := earlier + added;
      forall i, j | 0 <= i < j < |flow| ensures Rank(flow[i]) < Rank(flow[j]) {
        if j >= |earlier| {
          assert flow[i] == earlier[i] && flow[i] in earlier;
        } else {
          assert flow[i] == earlier[i] && flow[j] == earlier[j];
        }
      }
    }
  }

  /**
   * The built flow follows redirectMap's key order whatever order the sections were
   * selected in; in particular it never lists a page twice, and has at most six pages.
   */
  lemma RequiredJourneyFlowOrdered(selected: seq<string>)
    ensures InCanonicalOrder(RequiredJourneyFlow(selected))
    ensures forall i, j :: 0 <= i < j < |RequiredJourneyFlow(selected)| ==>
      RequiredJourneyFlow(selected)[i] != RequiredJourneyFlow(selected)[j]
    ensures |RequiredJourneyFlow(selected)| <= |RedirectMap|
  {
    PrefixFlowInCanonicalOrder(selected, |RedirectMap|);
    assert RedirectMap[..|RedirectMap|] == RedirectMap;
  }

  /**
   * Only which known sections were selected matters: neither the order of op-details,
   * nor repeated labels, nor unknown labels change the flow.
   */
  lemma {:induction false} FlowOfDependsOnSelectedSections(entries: seq<Entry>, a: seq<string>, b: seq<string>)
    requires forall k :: 0 <= k < |entries| ==> (entries[k].section in a <==> entries[k].section in b)
    ensures FlowOf(entries, a) == FlowOf(entries, b)
  {
    if entries != [] {
      var n := |entries| - 1;
      assert forall k :: 0 <= k < n ==> entries[..n][k] == entries[k];
      FlowOfDependsOnSelectedSections(entries[..n], a, b);
    }
  }

  /** The question-list flow depends only on the set of known sections selected. */
  lemma RequiredJourneyFlowDependsOnSections(a: seq<string>, b: seq<string>)
    requires forall s :: s in Sections() ==> (s in a <==> s in b)
    ensures RequiredJourneyFlow(a) == RequiredJourneyFlow(b)
  {
    forall k | 0 <= k < |RedirectMap|
      ensures RedirectMap[k].section in a <==> RedirectMap[k].section in b
    {
      assert RedirectMap[k].section in Sections();
    }
    FlowOfDependsOnSelectedSections(RedirectMap, a, b);
  }

  /**
   * Walking a flow of allowlisted pages: at step k the next page is the k-th page of the
   * flow, and once the steps run past its end it is check-your-answers.
   */
  lemma NextAllowedPageWalksFlow(flow: seq<string>, k: nat)
    requires forall p :: p in flow ==> p in AllowedPaths
    ensures NextAllowedPage(Some(k), Some(flow)) == if k < |flow| then flow[k] else CheckYourAnswers
  {
  }

  /** Extending the walked prefix of redirectMap by one entry appends that entry's contribution. */
  lemma FlowOfPrefixStep(selected: seq<string>, k: nat)
    requires k < |RedirectMap|
    ensures FlowOf(RedirectMap[..k + 1], selected)
            == FlowOf(RedirectMap[..k], selected) + Contribution(RedirectMap[k], selected)
  {
    assert RedirectMap[..k + 1][..k] == RedirectMap[..k];
  }

  /** Picking "Phone number" before "Name" still visits the name page first. */
  lemma PhoneThenNameExample()
    ensures RequiredJourneyFlow(["Phone number", "Name"]) == [OpName, OpPhone]
  {
    RedirectMapWellFormed();
    var picked := ["Phone number", "Name"];
    FlowOfPrefixStep(picked, 0);
    FlowOfPrefixStep(picked, 1);
    FlowOfPrefixStep(picked, 2);
    assert FlowOf(RedirectMap[..3], picked) == [OpName];
    FlowOfPrefixStep(picked, 3);
    assert FlowOf(RedirectMap[..4], picked) == [OpName, OpPhone];
    FlowOfPrefixStep(picked, 4);
    FlowOfPrefixStep(picked, 5);
    assert RedirectMap[..|RedirectMap|] == RedirectMap;
  }

  /** A label redirectMap does not know adds no page. */
  lemma UnknownLabelExample()
    ensures RequiredJourneyFlow(["Unknown label"]) == []
  {
    var unknown := ["Unknown label"];
    assert RedirectMap[0].section != "Unknown label";
    FlowOfPrefixStep(unknown, 0);
    assert FlowOf(RedirectMap[..1], unknown) == [];
    assert RedirectMap[1].section != "Unknown label";
    FlowOfPrefixStep(unknown, 1);
    assert FlowOf(RedirectMap[..2], unknown) == [];
    assert RedirectMap[2].section != "Unknown label";
    FlowOfPrefixStep(unknown, 2);
    assert FlowOf(RedirectMap[..3], unknown) == [];
    assert RedirectMap[3].section != "Unknown label";
    FlowOfPrefixStep(unknown, 3);
    assert FlowOf(RedirectMap[..4], unknown) == [];
    assert RedirectMap[4].section != "Unknown label";
    FlowOfPrefixStep(unknown, 4);
    assert FlowOf(RedirectMap[..5], unknown) == [];
    assert RedirectMap[5].section != "Unknown label";
    FlowOfPrefixStep(unknown, 5);
    assert FlowOf(RedirectMap[..6], unknown) == [];
    assert RedirectMap[..|RedirectMap|] == RedirectMap;
  }
}

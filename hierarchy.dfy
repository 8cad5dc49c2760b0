/**
  Resolving an example's suite: walk the `:example_group` parent links up to
  the outermost group and take its description.
 */
module Hierarchy {
  import opened Metadata

  /** Number of groups from `g` up to and including the outermost one. */
  function Depth(g: Option<Group>): nat
  {
    match g
    case None => 0
    case Some(x) => 1 + Depth(x.parent)
  }

  /** The groups enclosing an example whose innermost group is `g`, outermost first. */
  function Ancestry(g: Option<Group>): (h: seq<Group>)
    ensures |h| == Depth(g)
  {
    match g
    case None => []
    case Some(x) => Ancestry(x.parent) + [x]
  }

  /** The group reached from `g` by following parent links until there is none. */
  function Outermost(g: Group): (top: Group)
    ensures top.parent == None
  {
    match g.parent
    case None => g
    case Some(p) => Outermost(p)
  }

  /**
    `s` is the chain from the top down to `g`: it starts with a group that has
    no parent, each later element's parent is the element before it, and it
    ends with `g` itself (empty when there is no group).
   */
  ghost predicate IsChainTo(s: seq<Group>, g: Option<Group>)
  {
    match g
    case None => s == []
    case Some(x) =>
      && |s| > 0
      && s[0].parent == None
      && s[|s| - 1] == x
      && forall i :: 0 < i < |s| ==> s[i].parent == Some(s[i - 1])
  }

  lemma {:induction false} AncestryIsChain(g: Option<Group>)
    ensures IsChainTo(Ancestry(g), g)
  {
    match g
    case None =>
    case Some(x) =>
      AncestryIsChain(x.parent);
      var up := Ancestry(x.parent);
      assert Ancestry(g) == up + [x];
      if x.parent.Some? {
        assert up[|up| - 1] == x.parent.value;
      }
  }

  lemma {:induction false} ChainIsAncestry(s: seq<Group>, g: Option<Group>)
    requires IsChainTo(s, g)
    ensures s == Ancestry(g)
    decreases |s|
  {
    match g
    case None =>
    case Some(x) =>
      var up := s[..|s| - 1];
      assert s == up + [x];
      if |s| == 1 {
        assert x.parent == None;
      } else {
        assert x.parent == Some(s[|s| - 2]);
        assert IsChainTo(up, x.parent);
        ChainIsAncestry(up, x.parent);
      }
  }

  /** The ancestry is the one and only chain from the top down to `g`. */
  lemma AncestryCharacterised(s: seq<Group>, g: Option<Group>)
    ensures IsChainTo(s, g) <==> s == Ancestry(g)
  {
    AncestryIsChain(g);
    if IsChainTo(s, g) {
      ChainIsAncestry(s, g);
    }
  }

  /** The first element of the ancestry is the outermost group. */
  lemma {:induction false} AncestryStartsAtOutermost(g: Group)
    ensures Ancestry(Some(g))[0] == Outermost(g)
  {
    match g.parent
    case None =>
    case Some(p) =>
      AncestryStartsAtOutermost(p);
      assert Ancestry(Some(g)) == Ancestry(Some(p)) + [g];
  }

  /**
    The suite name an example is filed under: the description of its
    outermost group, or an error when it has no group at all.
   */
  function SuiteNameOf(e: Example): (r: Result<string>)
    ensures r.Err? <==> e.group == None
  {
    match e.group
    case None => Err(MalformedTestMetadata)
    case Some(g) => Ok(Outermost(g).description)
  }

  /** `group_hierarchy_for`: collect the groups by walking up and prepending each one. */
  method GroupHierarchyFor(example: Example) returns (hierarchy: seq<Group>)
    ensures hierarchy == Ancestry(example.group)
    ensures IsChainTo(hierarchy, example.group)
    ensures |hierarchy| == Depth(example.group)
  {
    hierarchy := [];
    var current := example.group;
    while current.Some?
      invariant Ancestry(current) + hierarchy == Ancestry(example.group)
      decreases Depth(current)
    {
      assert Ancestry(current) == Ancestry(current.value.parent) + [current.value];
      hierarchy := [current.value] + hierarchy;
      current := current.value.parent;
    }
    assert Ancestry(current) == [];
    AncestryIsChain(example.group);
  }

  /** `root_group_name_for`: the description of the first group of the hierarchy. */
  method RootGroupNameFor(example: Example) returns (r: Result<string>)
    ensures r == SuiteNameOf(example)
  {
    var hierarchy := GroupHierarchyFor(example);
    if hierarchy == [] {
      r := Err(MalformedTestMetadata);
    } else {
      AncestryStartsAtOutermost(example.group.value);
      r := Ok(hierarchy[0].description);
    }
  }
}

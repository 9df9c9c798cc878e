/** The replication topology of a cluster (control/read.go, topologyMembers): a
    depth-first walk over replicatefrom tags that may form cycles. */
module Topology {
  import opened Text
  import opened Cluster
  import Json

  datatype TopologyMember = TopologyMember(member: Member, parent: string, depth: nat)

  // ---- the graph ----

  predicate IsReplica(members: seq<Member>, leader: string, name: string) {
    name != leader && exists i :: 0 <= i < |members| && members[i].name == name
  }

  /** The parent of a non-leader member: the replica it names in replicatefrom,
      otherwise the leader. */
  function ParentOf(members: seq<Member>, leader: string, member: Member): string {
    match Json.Get(member.data.tags, "replicatefrom")
    case String(candidate) =>
      if candidate != member.name && IsReplica(members, leader, candidate) then candidate else leader
    case _ => leader
  }

  /** There is a non-leader member of this name below this parent. */
  predicate Edge(members: seq<Member>, leader: string, parent: string, child: string) {
    exists i :: 0 <= i < |members| && EdgeOf(members, leader, parent, child, i)
  }

  predicate EdgeOf(members: seq<Member>, leader: string, parent: string, child: string, i: nat)
    requires i < |members|
  {
    members[i].name == child && child != leader && ParentOf(members, leader, members[i]) == parent
  }

  lemma OneParent(members: seq<Member>, leader: string, p: string, q: string, child: string)
    requires UniqueNames(members) && Edge(members, leader, p, child) && Edge(members, leader, q, child)
    ensures p == q
  {
    hide ParentOf;
    var i :| 0 <= i < |members| && EdgeOf(members, leader, p, child, i);
    var j :| 0 <= j < |members| && EdgeOf(members, leader, q, child, j);
    assert i == j;
  }

  /** The parent chain of a name reaches the leader in this many steps, through
      members with a name. */
  ghost predicate Reaches(members: seq<Member>, leader: string, name: string, steps: nat)
    decreases steps
  {
    if steps == 0 then name == leader
    else exists parent :: parent != "" && Edge(members, leader, parent, name)
                          && Reaches(members, leader, parent, steps - 1)
  }

  predicate UniqueNames(members: seq<Member>) {
    forall i, j :: 0 <= i < j < |members| ==> members[i].name != members[j].name
  }

  /** With unique names every member has one parent, so its chain has one
      length. */
  lemma {:induction false} ChainLengthIsUnique(members: seq<Member>, leader: string, name: string, a: nat, b: nat)
    requires UniqueNames(members) && Reaches(members, leader, name, a) && Reaches(members, leader, name, b)
    ensures a == b
    decreases a
  {
    if a > 0 && b > 0 {
      var p :| Edge(members, leader, p, name) && Reaches(members, leader, p, a - 1);
      var q :| Edge(members, leader, q, name) && Reaches(members, leader, q, b - 1);
      OneParent(members, leader, p, q, name);
      ChainLengthIsUnique(members, leader, p, a - 1, b - 1);
    }
  }

  function ByName(members: seq<Member>): map<string, Member> {
    if members == [] then map[]
    else ByName(members[..|members| - 1])[members[|members| - 1].name := members[|members| - 1]]
  }

  lemma {:induction false} ByNameMembers(members: seq<Member>)
    ensures forall name :: name in ByName(members) <==> exists i :: 0 <= i < |members| && members[i].name == name
    ensures forall name :: name in ByName(members) ==>
              ByName(members)[name].name == name && ByName(members)[name] in members
  {
    if members != [] {
      var front, last := members[..|members| - 1], members[|members| - 1];
      ByNameMembers(front);
      assert members == front + [last];
      forall name
        ensures name in ByName(members) <==> exists i :: 0 <= i < |members| && members[i].name == name
      {
        if i: nat :| i < |members| && members[i].name == name {
          assert i < |front| ==> front[i].name == name;
        }
        if name in ByName(front) {
          var i :| 0 <= i < |front| && front[i].name == name;
          assert members[i].name == name;
        }
        assert members[|front|] == last;
      }
    }
  }

  lemma NamedBy(members: seq<Member>, name: string)
    requires name in ByName(members)
    ensures ByName(members)[name].name == name
  {
    hide ByName;
    ByNameMembers(members);
  }

  /** The children lists: for each parent its children, sorted. */
  ghost predicate ListsChildren(children: map<string, seq<string>>, members: seq<Member>, leader: string) {
    && (forall parent, child :: parent in children && child in children[parent] ==>
        Edge(members, leader, parent, child))
    && (forall parent, child :: Edge(members, leader, parent, child) ==>
        parent in children && child in children[parent])
    && (forall parent :: parent in children ==> InOrder(children[parent]))
  }

  /** The loops that fill and sort the children lists. */
  method CollectChildren(members: seq<Member>, leader: string) returns (children: map<string, seq<string>>)
    ensures ListsChildren(children, members, leader)
  {
    hide ParentOf, InOrder, SortStrings, Edge, EdgeBelow, AddChild;
    NoEdges(members, leader);
    var unsorted: map<string, seq<string>> := map[];
    var i := 0;
    while i < |members|
      invariant i <= |members|
      invariant forall parent, child :: HasChild(unsorted, parent, child) <==>
                  EdgeBelow(members, leader, parent, child, i)
    {
      ChildAdded(unsorted, members, leader, i);
      unsorted := AddChild(unsorted, members, leader, i);
      i := i + 1;
    }
    EdgeWhole(members, leader);
    children := map parent | parent in unsorted :: SortStrings(unsorted[parent]);
    forall parent | parent in unsorted
      ensures InOrder(children[parent])
      ensures forall child :: child in children[parent] <==> child in unsorted[parent]
    {
      SortStringsSorts(unsorted[parent]);
      SameMembers(children[parent], unsorted[parent]);
    }
  }

  predicate HasChild(children: map<string, seq<string>>, parent: string, child: string) {
    parent in children && child in children[parent]
  }

  /** One turn of the loop over the members. */
  function AddChild(unsorted: map<string, seq<string>>, members: seq<Member>, leader: string,
                    i: nat): map<string, seq<string>>
    requires i < |members|
  {
    if members[i].name == leader then unsorted
    else
      var parent := ParentOf(members, leader, members[i]);
      unsorted[parent := (if parent in unsorted then unsorted[parent] else []) + [members[i].name]]
  }

  lemma ChildAdded(unsorted: map<string, seq<string>>, members: seq<Member>, leader: string, i: nat)
    requires i < |members|
    requires forall parent, child :: HasChild(unsorted, parent, child) <==> EdgeBelow(members, leader, parent, child, i)
    ensures var next := AddChild(unsorted, members, leader, i);
            forall parent, child :: HasChild(next, parent, child) <==> EdgeBelow(members, leader, parent, child, i + 1)
  {
    hide ParentOf, EdgeBelow;
    EdgeStep(members, leader, i);
    var next := AddChild(unsorted, members, leader, i);
    forall parent, child
      ensures HasChild(next, parent, child) <==> EdgeBelow(members, leader, parent, child, i + 1)
    {
      assert HasChild(unsorted, parent, child) <==> EdgeBelow(members, leader, parent, child, i);
      assert EdgeOf(members, leader, parent, child, i) <==>
               members[i].name == child && child != leader && ParentOf(members, leader, members[i]) == parent;
    }
  }

  lemma EdgeStep(members: seq<Member>, leader: string, n: nat)
    requires n < |members|
    ensures forall parent, child :: EdgeBelow(members, leader, parent, child, n + 1) <==>
              EdgeBelow(members, leader, parent, child, n)
              || EdgeOf(members, leader, parent, child, n)
  {
    hide ParentOf, EdgeOf;
  }

  lemma NoEdges(members: seq<Member>, leader: string)
    ensures forall parent, child :: !EdgeBelow(members, leader, parent, child, 0)
  {
    hide ParentOf;
  }

  lemma EdgeWhole(members: seq<Member>, leader: string)
    ensures forall parent, child :: EdgeBelow(members, leader, parent, child, |members|) <==>
              Edge(members, leader, parent, child)
  {
    hide ParentOf, EdgeOf;
  }

  lemma SameMembers(a: seq<string>, b: seq<string>)
    requires multiset(a) == multiset(b)
    ensures forall x :: x in a <==> x in b
  {
    forall x
      ensures x in a <==> x in b
    {
      assert x in a <==> x in multiset(a);
      assert x in b <==> x in multiset(b);
    }
  }

  predicate EdgeBelow(members: seq<Member>, leader: string, parent: string, child: string, n: nat)
    requires n <= |members|
  {
    exists i :: 0 <= i < n && EdgeOf(members, leader, parent, child, i)
  }

  // ---- the walk ----

  ghost predicate NamesOf(entries: seq<TopologyMember>, names: set<string>) {
    && (forall i :: 0 <= i < |entries| ==> entries[i].member.name in names)
    && (forall name :: name in names ==> exists i :: 0 <= i < |entries| && entries[i].member.name == name)
  }

  ghost predicate Distinct(entries: seq<TopologyMember>) {
    forall i, j :: 0 <= i < j < |entries| ==> entries[i].member.name != entries[j].member.name
  }

  /** Every entry carries the member its name stands for. */
  ghost predicate Current(entries: seq<TopologyMember>, byName: map<string, Member>) {
    forall i :: 0 <= i < |entries| ==>
          entries[i].member.name in byName && entries[i].member == byName[entries[i].member.name]
  }

  /** The parent recorded for a name: none for the leader, and otherwise the one
      it replicates from. */
  ghost predicate Parent(members: seq<Member>, leader: string, name: string, parent: string) {
    (name == leader && parent == "") || Edge(members, leader, parent, name)
  }

  ghost predicate Parented(entries: seq<TopologyMember>, members: seq<Member>, leader: string) {
    forall i :: 0 <= i < |entries| ==> Parent(members, leader, entries[i].member.name, entries[i].parent)
  }

  /** Entry j is the parent, one level up, nothing after it has left its subtree,
      and none of its children so far sorts after the name. */
  ghost predicate PlaceUnder(entries: seq<TopologyMember>, j: nat, name: string, parent: string, depth: nat) {
    && j < |entries| && entries[j].member.name == parent && entries[j].depth + 1 == depth
    && forall m :: j < m < |entries| ==>
         entries[m].depth >= depth && (entries[m].depth == depth ==> !Less(name, entries[m].member.name))
  }

  /** A depth-first, sorted listing may go on with this name. */
  ghost predicate Place(entries: seq<TopologyMember>, name: string, parent: string, depth: nat) {
    depth > 0 ==> exists j :: PlaceUnder(entries, j, name, parent, depth)
  }

  /** A depth-first listing with sorted siblings: every entry below the top
      follows its parent, with only that parent's descendants in between. */
  ghost predicate DepthFirst(entries: seq<TopologyMember>) {
    forall i :: 0 <= i < |entries| ==> Place(entries[..i], entries[i].member.name, entries[i].parent, entries[i].depth)
  }

  /** After entry `at` there are only its descendants, and only these names among
      its children. */
  ghost predicate Under(entries: seq<TopologyMember>, at: nat, names: seq<string>) {
    && at < |entries|
    && forall m :: at < m < |entries| ==>
         entries[m].depth > entries[at].depth
         && (entries[m].depth == entries[at].depth + 1 ==> entries[m].member.name in names)
  }

  lemma UnderIsPlace(entries: seq<TopologyMember>, at: nat, names: seq<string>, k: nat)
    requires k < |names| && InOrder(names) && Under(entries, at, names[..k])
    ensures Place(entries, names[k], entries[at].member.name, entries[at].depth + 1)
  {
    hide Less;
    assert forall name :: name in names[..k] ==> exists i :: 0 <= i < k && names[i] == name;
    assert PlaceUnder(entries, at, names[k], entries[at].member.name, entries[at].depth + 1);
  }

  /** What one walk adds: its own name at its depth and deeper entries. */
  ghost predicate Subtree(entries: seq<TopologyMember>, n: nat, name: string, depth: nat) {
    forall m :: n <= m < |entries| ==>
      entries[m].depth >= depth && (entries[m].depth == depth ==> entries[m].member.name == name)
  }

  lemma SubtreeStaysUnder(entries: seq<TopologyMember>, longer: seq<TopologyMember>, at: nat, names: seq<string>,
                          k: nat)
    requires k < |names| && entries <= longer && Under(entries, at, names[..k])
    requires Subtree(longer, |entries|, names[k], entries[at].depth + 1)
    ensures Under(longer, at, names[..k + 1])
  {
    assert names[..k + 1] == names[..k] + [names[k]];
    forall m | at < m < |longer|
      ensures longer[m].depth > longer[at].depth
      ensures longer[m].depth == longer[at].depth + 1 ==> longer[m].member.name in names[..k + 1]
    {
      if m < |entries| {
        assert longer[m] == entries[m];
      }
    }
  }

  /** The name is listed before entry i, or in its subtree. */
  ghost predicate ListedBy(entries: seq<TopologyMember>, i: nat, name: string)
    requires i < |entries|
  {
    exists j :: 0 <= j < |entries| && entries[j].member.name == name && Reached(entries, i, j)
  }

  ghost predicate Reached(entries: seq<TopologyMember>, i: nat, j: nat)
    requires i < |entries| && j < |entries|
  {
    forall m :: i < m <= j ==> entries[m].depth > entries[i].depth
  }

  /** No subtree is left early: every child of an entry from position n on that was
      not listed before the entry lies in its subtree. */
  ghost predicate Enclosed(entries: seq<TopologyMember>, n: nat, members: seq<Member>, leader: string) {
    forall i, child :: n <= i < |entries| && Edge(members, leader, entries[i].member.name, child) && child != "" ==>
          ListedBy(entries, i, child)
  }

  lemma EnclosedGrows(entries: seq<TopologyMember>, longer: seq<TopologyMember>, n: nat, members: seq<Member>,
                      leader: string)
    requires entries <= longer && Enclosed(entries, n, members, leader) && Enclosed(longer, |entries|, members, leader)
    ensures Enclosed(longer, n, members, leader)
  {
    hide Edge;
    forall i, child | n <= i < |longer| && Edge(members, leader, longer[i].member.name, child) && child != ""
      ensures ListedBy(longer, i, child)
    {
      if i < |entries| {
        assert entries[i] == longer[i] && ListedBy(entries, i, child);
        var j :| 0 <= j < |entries| && entries[j].member.name == child && Reached(entries, i, j);
        assert longer[j].member.name == child && Reached(longer, i, j);
      }
    }
  }

  lemma NothingUnder(entries: seq<TopologyMember>, members: seq<Member>, leader: string)
    requires entries != []
    ensures Under(entries, |entries| - 1, []) && Enclosed(entries, |entries|, members, leader)
  {
  }

  /** An entry whose children are all listed, with only descendants after it. */
  lemma EnclosedFrom(entries: seq<TopologyMember>, at: nat, names: seq<string>, visited: set<string>,
                     members: seq<Member>,
                     leader: string)
    requires Under(entries, at, names) && Enclosed(entries, at + 1, members, leader)
    requires Listing(entries, visited, members, leader)
    requires forall child :: Edge(members, leader, entries[at].member.name, child) && child != "" ==> child in visited
    ensures Enclosed(entries, at, members, leader) && Subtree(entries, at, entries[at].member.name, entries[at].depth)
  {
    hide Edge, DepthFirst, Current, Parented;
    forall child | Edge(members, leader, entries[at].member.name, child) && child != ""
      ensures ListedBy(entries, at, child)
    {
      var j :| 0 <= j < |entries| && entries[j].member.name == child;
      assert Reached(entries, at, j);
    }
  }

  /** A tree starts with the leader or with the first member not listed before. */
  ghost predicate TreesInOrder(entries: seq<TopologyMember>, members: seq<Member>, leader: string) {
    forall i :: 0 <= i < |entries| && entries[i].depth == 0 ==>
          entries[i].member.name == leader || exists k :: StartsTree(entries, i, members, k)
  }

  ghost predicate StartsTree(entries: seq<TopologyMember>, i: nat, members: seq<Member>, k: nat)
    requires i < |entries|
  {
    && k < |members| && members[k].name == entries[i].member.name
    && forall l :: 0 <= l < k && members[l].name != "" ==>
          exists j :: 0 <= j < i && entries[j].member.name == members[l].name
  }

  /** A walk at the top adds at most one tree. */
  lemma TreeAdded(entries: seq<TopologyMember>, longer: seq<TopologyMember>, visited: set<string>, members: seq<Member>,
                  leader: string, k: nat)
    requires TreesInOrder(entries, members, leader) && entries <= longer && k < |members|
    requires NamesOf(entries, visited) && Distinct(longer) && Subtree(longer, |entries|, members[k].name, 0)
    requires DepthFirst(longer)
    requires forall l :: 0 <= l < k && members[l].name != "" ==> members[l].name in visited
    ensures TreesInOrder(longer, members, leader)
  {
    forall i | 0 <= i < |longer| && longer[i].depth == 0
      ensures longer[i].member.name == leader || exists k :: StartsTree(longer, i, members, k)
    {
      if i < |entries| {
        assert entries[i] == longer[i];
        if longer[i].member.name != leader {
          var l :| StartsTree(entries, i, members, l);
          assert forall m :: 0 <= m < l && members[m].name != "" ==>
                   exists j :: 0 <= j < i && longer[j].member.name == members[m].name by {
            assert forall j :: 0 <= j < i ==> longer[j] == entries[j];
          }
          assert StartsTree(longer, i, members, l);
        }
      } else {
        forall l | 0 <= l < k && members[l].name != ""
          ensures exists j :: 0 <= j < i && longer[j].member.name == members[l].name
        {
          var j :| 0 <= j < |entries| && entries[j].member.name == members[l].name;
          assert longer[j] == entries[j];
        }
        assert StartsTree(longer, i, members, k);
      }
    }
  }

  class Walker {
    ghost const members: seq<Member>
    ghost const leader: string
    const byName: map<string, Member>
    const children: map<string, seq<string>>
    var visited: set<string>
    var result: seq<TopologyMember>

    constructor (all: seq<Member>, first: string, names: map<string, Member>, below: map<string, seq<string>>)
      requires names == ByName(all) && ListsChildren(below, all, first)
      ensures Valid() && visited == {} && result == [] && members == all && leader == first && byName == names
              && children == below
    {
      members, leader, byName, children := all, first, names, below;
      visited, result := {}, [];
    }

    ghost predicate Valid()
      reads this
    {
      && byName == ByName(members) && ListsChildren(children, members, leader)
      && visited <= byName.Keys && "" !in visited
      && Listing(result, visited, members, leader)
    }

    /** The children of these names are visited. */
    ghost predicate Closed(names: set<string>)
      reads this
    {
      forall name, child :: name in names && Edge(members, leader, name, child) && child != "" ==> child in visited
    }

    /** Entries from position n on reach the leader at their own depth. */
    ghost predicate Chains(n: nat)
      reads this
    {
      forall i :: n <= i < |result| ==> Reaches(members, leader, result[i].member.name, result[i].depth)
    }

    /** The recursive closure walk. */
    method Walk(name: string, parent: string, depth: nat)
      requires Valid() && Place(result, name, parent, depth)
      requires name != "" && name in byName ==> Parent(members, leader, name, parent)
      modifies this
      ensures Valid() && old(result) <= result && old(visited) <= visited
      ensures name != "" && name in byName ==> name in visited
      ensures Subtree(result, |old(result)|, name, depth)
      ensures Closed(visited - old(visited)) && Enclosed(result, |old(result)|, members, leader)
      ensures Reaches(members, leader, name, depth) ==> Chains(|old(result)|)
      decreases |byName.Keys - visited|, 1
    {
      hide ParentOf, Reaches, Listing, ByName, Edge, ListsChildren, Place, ListedBy;
      if name == "" || name in visited || name !in byName {
        return;
      }
      ghost var at := |result|;
      Emit(name, parent, depth);
      WalkChildren(name, depth, at);
      assert visited - old(visited) == {name} + (visited - old(visited) - {name});
    }

    /** The entry of a name not yet visited. */
    method Emit(name: string, parent: string, depth: nat)
      requires Valid() && Place(result, name, parent, depth) && Parent(members, leader, name, parent)
      requires name != "" && name in byName && name !in visited
      modifies this
      ensures Valid() && visited == old(visited) + {name}
      ensures |result| == |old(result)| + 1 && old(result) <= result
      ensures result[|old(result)|].member.name == name && result[|old(result)|].depth == depth
      ensures |byName.Keys - visited| < old(|byName.Keys - visited|)
    {
      hide Listing, ByName, ListsChildren, Place, Parent, ParentOf, Edge, Reaches, InOrder;
      NamedBy(members, name);
      EntryAdded(result, visited, byName[name], parent, depth, members, leader);
      Smaller(byName.Keys, visited, visited + {name}, name);
      visited := visited + {name};
      result := result + [TopologyMember(byName[name], parent, depth)];
    }

    /** The loop of walk over the children of the name just emitted. */
    method WalkChildren(name: string, depth: nat, ghost at: nat)
      requires Valid() && name != "" && |result| == at + 1 && result[at].member.name == name
               && result[at].depth == depth
      modifies this
      ensures Valid() && old(result) <= result && old(visited) <= visited
      ensures forall child :: Edge(members, leader, name, child) && child != "" ==> child in visited
      ensures Subtree(result, at, name, depth)
      ensures Closed(visited - old(visited)) && Enclosed(result, at, members, leader)
      ensures Reaches(members, leader, name, depth) ==> Chains(at)
      decreases |byName.Keys - visited|, 3
    {
      hide ParentOf, Reaches, Listing, ByName, Edge, ListsChildren, Enclosed, Under, Subtree, Place;
      NothingUnder(result, members, leader);
      if name !in children {
        NoChildren(members, leader, children, name);
        EnclosedFrom(result, at, [], visited, members, leader);
        return;
      }
      ChildrenListed(members, leader, children, name);
      var below := children[name];
      ghost var seen := visited;
      var k := 0;
      while k < |below|
        invariant k <= |below|
        invariant Valid() && old(result) <= result && seen <= visited
        invariant Under(result, at, below[..k])
        invariant forall c :: c in below[..k] && c != "" ==> c in visited
        invariant Closed(visited - seen) && Enclosed(result, at + 1, members, leader)
        invariant Reaches(members, leader, name, depth) ==> Chains(at)
      {
        assert below[..k + 1] == below[..k] + [below[k]];
        Fewer(byName.Keys - visited, byName.Keys - seen);
        Descend(name, depth, k, at, seen);
        k := k + 1;
      }
      assert below[..k] == below;
      EnclosedFrom(result, at, below, visited, members, leader);
    }

    /** One turn of that loop. */
    method Descend(name: string, depth: nat, k: nat, ghost at: nat, ghost seen: set<string>)
      requires Valid() && name != "" && name in children && k < |children[name]|
               && Under(result, at, children[name][..k])
      requires result[at].member.name == name && result[at].depth == depth
      requires seen <= visited && Closed(visited - seen) && Enclosed(result, at + 1, members, leader)
      requires Reaches(members, leader, name, depth) ==> Chains(at)
      modifies this
      ensures Valid() && old(result) <= result && old(visited) <= visited
      ensures Under(result, at, children[name][..k + 1])
      ensures children[name][k] != "" ==> children[name][k] in visited
      ensures Closed(visited - seen) && Enclosed(result, at + 1, members, leader)
      ensures Reaches(members, leader, name, depth) ==> Chains(at)
      decreases |byName.Keys - visited|, 2
    {
      hide ParentOf, Reaches, Listing, ByName, Edge, ListsChildren, Under, Place, Subtree, InOrder, Enclosed;
      ChildIsMember(members, leader, children, name, k);
      UnderIsPlace(result, at, children[name], k);
      if Reaches(members, leader, name, depth) {
        OneStepMore(members, leader, children, name, k, depth);
      }
      Walk(children[name][k], name, depth + 1);
      SubtreeStaysUnder(old(result), result, at, children[name], k);
      EnclosedGrows(old(result), result, at + 1, members, leader);
      assert visited - seen == (old(visited) - seen) + (visited - old(visited));
    }
  }

  /** What a walk keeps of its list. */
  ghost predicate Listing(entries: seq<TopologyMember>, names: set<string>, members: seq<Member>, leader: string) {
    && NamesOf(entries, names) && Distinct(entries) && DepthFirst(entries)
    && Current(entries, ByName(members)) && Parented(entries, members, leader)
  }

  lemma ListingNames(entries: seq<TopologyMember>, names: set<string>, members: seq<Member>, leader: string)
    requires Listing(entries, names, members, leader)
    ensures NamesOf(entries, names) && Distinct(entries) && DepthFirst(entries)
  {
  }

  lemma EntryAdded(entries: seq<TopologyMember>, names: set<string>, member: Member, parent: string, depth: nat,
                   members: seq<Member>, leader: string)
    requires Listing(entries, names, members, leader) && member.name !in names
    requires Place(entries, member.name, parent, depth) && Parent(members, leader, member.name, parent)
    requires member.name in ByName(members) && ByName(members)[member.name] == member
    ensures Listing(entries + [TopologyMember(member, parent, depth)], names + {member.name}, members, leader)
  {
    hide ByName, Place, Parent;
    var longer := entries + [TopologyMember(member, parent, depth)];
    forall i | 0 <= i < |longer|
      ensures Place(longer[..i], longer[i].member.name, longer[i].parent, longer[i].depth)
    {
      if i < |entries| {
        assert longer[..i] == entries[..i];
      } else {
        assert longer[..i] == entries;
      }
    }
    forall name | name in names + {member.name}
      ensures exists i :: 0 <= i < |longer| && longer[i].member.name == name
    {
      if name in names {
        var i :| 0 <= i < |entries| && entries[i].member.name == name;
        assert longer[i].member.name == name;
      } else {
        assert longer[|entries|].member.name == name;
      }
    }
  }

  lemma Smaller(all: set<string>, seen: set<string>, visited: set<string>, name: string)
    requires name in all && name !in seen && visited == seen + {name}
    ensures |all - visited| < |all - seen|
  {
    assert all - seen == (all - visited) + {name};
  }

  lemma Fewer(a: set<string>, b: set<string>)
    requires a <= b
    ensures |a| <= |b|
  {
    assert b == a + (b - a);
  }

  lemma ChildIsMember(members: seq<Member>, leader: string, children: map<string, seq<string>>, name: string, k: nat)
    requires ListsChildren(children, members, leader) && name in children && k < |children[name]|
    ensures children[name][k] in ByName(members) && InOrder(children[name])
    ensures Parent(members, leader, children[name][k], name)
  {
    hide ParentOf, ByName, InOrder;
    assert children[name][k] in children[name];
    ByNameMembers(members);
    assert Edge(members, leader, name, children[name][k]);
  }

  lemma OneStepMore(members: seq<Member>, leader: string, children: map<string, seq<string>>, name: string, k: nat,
                    depth: nat)
    requires ListsChildren(children, members, leader) && name in children && k < |children[name]|
    requires Reaches(members, leader, name, depth) && name != ""
    ensures Reaches(members, leader, children[name][k], depth + 1)
  {
    hide ParentOf, Edge;
    assert children[name][k] in children[name];
  }

  lemma ChildrenListed(members: seq<Member>, leader: string, children: map<string, seq<string>>, name: string)
    requires ListsChildren(children, members, leader) && name in children
    ensures forall child :: Edge(members, leader, name, child) ==> child in children[name]
  {
    hide Edge;
  }

  lemma NoChildren(members: seq<Member>, leader: string, children: map<string, seq<string>>, name: string)
    requires ListsChildren(children, members, leader) && name !in children
    ensures forall child :: !Edge(members, leader, name, child)
  {
    hide Edge;
  }

  // ---- the listing ----

  /** The result of topologyMembers: every non-empty name once, with its last
      member and the parent it replicates from; depth first, siblings sorted, no
      subtree left early, trees in member order; and, when the leader is a member,
      first exactly the members whose parent chain reaches it, each at the length
      of its chain. */
  ghost predicate IsTopology(result: seq<TopologyMember>, members: seq<Member>, leader: string) {
    && Distinct(result) && DepthFirst(result) && Parented(result, members, leader)
    && Enclosed(result, 0, members, leader) && TreesInOrder(result, members, leader)
    && (forall name :: (exists i :: 0 <= i < |result| && result[i].member.name == name) <==>
        name != "" && name in ByName(members))
    && Current(result, ByName(members))
    && (leader != "" && leader in ByName(members) ==>
          exists connected: nat :: ConnectedFirst(result, connected, members, leader))
  }

  ghost predicate ConnectedFirst(result: seq<TopologyMember>, connected: nat, members: seq<Member>, leader: string) {
    && connected <= |result|
    && (forall i :: 0 <= i < connected ==> Reaches(members, leader, result[i].member.name, result[i].depth))
    && (forall i, steps :: connected <= i < |result| ==> !Reaches(members, leader, result[i].member.name, steps))
  }

  /** topologyMembers: the walk from the leader, then from whatever is left. */
  method TopologyMembers(members: seq<Member>, leader: string) returns (result: seq<TopologyMember>)
    ensures IsTopology(result, members, leader)
  {
    hide ParentOf, Reaches, Listing, Edge, ListsChildren, ByName, IsTopology, Parent, Enclosed, TreesInOrder, Subtree;
    var byName: map<string, Member> := map[];
    var i := 0;
    NoNames();
    while i < |members|
      invariant i <= |members|
      invariant byName == ByName(members[..i])
    {
      NextName(members, i);
      byName := byName[members[i].name := members[i]];
      i := i + 1;
    }
    assert members[..i] == members;
    var children := CollectChildren(members, leader);
    var parents := Parents(members, leader);
    NothingListed(members, leader);
    var w := new Walker(members, leader, byName, children);
    LeaderReachesItself(members, leader);
    w.Walk(leader, "", 0);
    FirstTree(w.result, members, leader);
    ghost var first := w.visited;
    ghost var reached := w.result;
    assert w.Closed(first) by { assert first - {} == first; }
    i := 0;
    while i < |members|
      invariant i <= |members|
      invariant w.Valid() && w.members == members && w.leader == leader && w.byName == byName
      invariant reached <= w.result && first <= w.visited
      invariant Enclosed(w.result, 0, members, leader) && TreesInOrder(w.result, members, leader)
      invariant forall j :: 0 <= j < i && members[j].name != "" ==> members[j].name in w.visited
    {
      ByNameMembers(members);
      if members[i].name !in w.visited {
        assert members[i].name != leader || members[i].name == "";
        assert members[i].name in parents ==>
                 Parent(members, leader, members[i].name,
                        parents[members[i].name]) by { EdgeIsParent(members, leader, parents); }
        ghost var before, seen := w.result, w.visited;
        w.Walk(members[i].name, if members[i].name in parents then parents[members[i].name] else "", 0);
        EnclosedGrows(before, w.result, 0, members, leader);
        NextTree(before, seen, w.result, w.visited, members, leader, i);
      }
      i := i + 1;
    }
    result := w.result;
    Finished(reached, first, result, w.visited, members, leader);
  }

  lemma FirstTree(entries: seq<TopologyMember>, members: seq<Member>, leader: string)
    requires Subtree(entries, 0, leader, 0)
    ensures TreesInOrder(entries, members, leader)
  {
  }

  lemma NextTree(entries: seq<TopologyMember>, seen: set<string>, longer: seq<TopologyMember>, visited: set<string>,
                 members: seq<Member>, leader: string, k: nat)
    requires Listing(entries, seen, members, leader) && Listing(longer, visited, members, leader) && entries <= longer
    requires TreesInOrder(entries, members, leader) && k < |members| && Subtree(longer, |entries|, members[k].name, 0)
    requires forall l :: 0 <= l < k && members[l].name != "" ==> members[l].name in seen
    ensures TreesInOrder(longer, members, leader)
  {
    hide TreesInOrder, Subtree;
    ListingNames(entries, seen, members, leader);
    ListingNames(longer, visited, members, leader);
    TreeAdded(entries, longer, seen, members, leader, k);
  }

  lemma NothingListed(members: seq<Member>, leader: string)
    ensures Listing([], {}, members, leader) && Place([], leader, "", 0) && Parent(members, leader, leader, "")
  {
  }

  lemma EdgeIsParent(members: seq<Member>, leader: string, parents: map<string, string>)
    requires forall name :: name in parents ==> Edge(members, leader, parents[name], name)
    ensures forall name :: name in parents ==> Parent(members, leader, name, parents[name])
  {
    hide Edge;
  }

  /** The walks together list what they should. */
  lemma Finished(reached: seq<TopologyMember>, first: set<string>, result: seq<TopologyMember>, visited: set<string>,
                 members: seq<Member>, leader: string)
    requires Listing(reached, first, members, leader) && Listing(result, visited, members, leader) && reached <= result
    requires visited <= ByName(members).Keys && "" !in visited && first <= visited
    requires forall j :: 0 <= j < |members| && members[j].name != "" ==> members[j].name in visited
    requires leader != "" && leader in ByName(members) ==> leader in first
    requires forall p, child :: p in first && Edge(members, leader, p, child) && child != "" ==> child in first
    requires forall i :: 0 <= i < |reached| ==> Reaches(members, leader, reached[i].member.name, reached[i].depth)
    requires Enclosed(result, 0, members, leader) && TreesInOrder(result, members, leader)
    ensures IsTopology(result, members, leader)
  {
    hide ByName, Reaches, Edge, DepthFirst, Parented, Current, Enclosed, TreesInOrder;
    AllListed(visited, result, members);
    if leader != "" && leader in ByName(members) {
      forall n, steps | |reached| <= n < |result|
        ensures !Reaches(members, leader, result[n].member.name, steps)
      {
        if Reaches(members, leader, result[n].member.name, steps) {
          ReachedIsFirst(members, leader, first, result[n].member.name, steps);
          NotListedTwice(reached, first, result, n);
        }
      }
      assert forall i :: 0 <= i < |reached| ==> result[i] == reached[i];
      assert ConnectedFirst(result, |reached|, members, leader);
    }
  }

  lemma NoNames()
    ensures ByName([]) == map[]
  {
  }

  lemma NextName(members: seq<Member>, i: nat)
    requires i < |members|
    ensures members[..0] == []
    ensures ByName(members[..i + 1]) == ByName(members[..i])[members[i].name := members[i]]
  {
    assert members[..i + 1][..i] == members[..i];
  }

  lemma LeaderReachesItself(members: seq<Member>, leader: string)
    ensures Reaches(members, leader, leader, 0)
  {
  }

  /** The parents map; a repeated name keeps its last member's parent. */
  method Parents(members: seq<Member>, leader: string) returns (parents: map<string, string>)
    ensures forall i :: 0 <= i < |members| && members[i].name != leader ==> members[i].name in parents
    ensures forall name :: name in parents ==> Edge(members, leader, parents[name], name)
  {
    hide ParentOf;
    parents := map[];
    var i := 0;
    while i < |members|
      invariant i <= |members|
      invariant forall j :: 0 <= j < i && members[j].name != leader ==> members[j].name in parents
      invariant forall name :: name in parents ==> Edge(members, leader, parents[name], name)
    {
      if members[i].name != leader {
        assert EdgeOf(members, leader, ParentOf(members, leader, members[i]), members[i].name, i);
        parents := parents[members[i].name := ParentOf(members, leader, members[i])];
      }
      i := i + 1;
    }
  }

  lemma AllListed(visited: set<string>, result: seq<TopologyMember>, members: seq<Member>)
    requires NamesOf(result, visited) && visited <= ByName(members).Keys && "" !in visited
    requires forall j :: 0 <= j < |members| && members[j].name != "" ==> members[j].name in visited
    ensures forall name :: (exists i :: 0 <= i < |result| && result[i].member.name == name) <==>
              name != "" && name in ByName(members)
  {
    hide ByName;
    ByNameMembers(members);
  }

  /** Whatever reaches the leader was visited by the first walk. */
  lemma {:induction false} ReachedIsFirst(members: seq<Member>, leader: string, visited: set<string>, name: string,
                                        steps: nat)
    requires leader in visited && name != "" && Reaches(members, leader, name, steps)
    requires forall p, child :: p in visited && Edge(members, leader, p, child) && child != "" ==> child in visited
    ensures name in visited
    decreases steps
  {
    hide Edge;
    if steps > 0 {
      var parent :| parent != "" && Edge(members, leader, parent, name) && Reaches(members, leader, parent, steps - 1);
      ReachedIsFirst(members, leader, visited, parent, steps - 1);
    }
  }

  lemma NotListedTwice(reached: seq<TopologyMember>, first: set<string>, result: seq<TopologyMember>, n: nat)
    requires reached <= result && NamesOf(reached, first) && Distinct(result) && |reached| <= n < |result|
    ensures result[n].member.name !in first
  {
    forall i | 0 <= i < |reached|
      ensures reached[i].member.name != result[n].member.name
    {
      assert result[i] == reached[i];
    }
  }

  /** With unique, non-empty names the listing has every member exactly once,
      and a member whose chain reaches the leader at the length of that chain,
      after none whose chain does not. */
  lemma EachMemberOnce(result: seq<TopologyMember>, members: seq<Member>, leader: string, i: nat) returns (k: nat)
    requires IsTopology(result, members, leader) && UniqueNames(members) && i < |members| && members[i].name != ""
    ensures k < |result| && result[k].member == members[i]
    ensures forall j :: 0 <= j < |result| && result[j].member == members[i] ==> j == k
    ensures leader != "" && leader in ByName(members) ==>
              forall steps :: Reaches(members, leader, members[i].name, steps) ==>
                result[k].depth == steps
                && forall j :: 0 <= j <= k ==> Reaches(members, leader, result[j].member.name, result[j].depth)
  {
    hide ByName, Reaches, DepthFirst, Parented, Enclosed, TreesInOrder;
    ByNameMembers(members);
    var name := members[i].name;
    assert name in ByName(members) by { assert members[i].name == name; }
    k :| 0 <= k < |result| && result[k].member.name == members[i].name;
    var m :| 0 <= m < |members| && members[m] == ByName(members)[members[i].name];
    assert m == i;
    if leader != "" && leader in ByName(members) {
      var connected: nat :| ConnectedFirst(result, connected, members, leader);
      forall steps | Reaches(members, leader, members[i].name, steps)
        ensures k < connected && result[k].depth == steps
      {
        assert k < connected;
        ChainLengthIsUnique(members, leader, members[i].name, steps, result[k].depth);
      }
    }
  }

  // ---- the listing is determined ----

  lemma ListedNames(a: seq<TopologyMember>, members: seq<Member>, leader: string, i: nat)
    requires IsTopology(a, members, leader) && i < |a|
    ensures a[i].member.name != "" && a[i].member.name in ByName(members)
    ensures a[i].member == ByName(members)[a[i].member.name] && Parent(members, leader, a[i].member.name, a[i].parent)
  {
    hide ByName, Reaches, DepthFirst, Edge, Enclosed, TreesInOrder, Distinct, Parent, ConnectedFirst;
    var name := a[i].member.name;
    assert exists k :: 0 <= k < |a| && a[k].member.name == name;
    assert name != "" && name in ByName(members);
  }

  /** A listed leader comes first. */
  lemma LeaderIsFirst(a: seq<TopologyMember>, members: seq<Member>, leader: string, i: nat)
    requires IsTopology(a, members, leader) && i < |a| && a[i].member.name == leader
    ensures a[0].member.name == leader
  {
    hide ByName, Edge, Enclosed, TreesInOrder, Distinct, Parented, Current;
    ListedNames(a, members, leader, i);
    var connected: nat :| ConnectedFirst(a, connected, members, leader);
    LeaderReachesItself(members, leader);
    assert i < connected;
    assert Place(a[..0], a[0].member.name, a[0].parent, a[0].depth);
    assert Reaches(members, leader, a[0].member.name, a[0].depth);
  }

  /** A name that goes on below the top of one listing keeps its place in another one
      with the same beginning: after position n, within the subtree of the same parent. */
  lemma StillToCome(a: seq<TopologyMember>, b: seq<TopologyMember>, members: seq<Member>, leader: string, n: nat)
    returns (p: nat, j: nat)
    requires IsTopology(a, members, leader) && IsTopology(b, members, leader)
    requires n < |a| && n < |b| && a[..n] == b[..n] && a[n].depth > 0
    ensures PlaceUnder(a[..n], p, a[n].member.name, a[n].parent, a[n].depth)
    ensures Edge(members, leader, a[n].parent, a[n].member.name)
    ensures n <= j < |b| && b[j].member.name == a[n].member.name && Reached(b, p, j)
  {
    hide ByName, Reaches, Edge, TreesInOrder, Parented, Current, PlaceUnder;
    assert Place(a[..n], a[n].member.name, a[n].parent, a[n].depth);
    p :| PlaceUnder(a[..n], p, a[n].member.name, a[n].parent, a[n].depth);
    PlacedBelow(a, n, p);
    ListedNames(a, members, leader, n);
    ListedNames(a, members, leader, p);
    assert forall m :: 0 <= m < n ==> a[m] == a[..n][m] == b[..n][m] == b[m];
    assert ListedBy(b, p, a[n].member.name);
    j :| 0 <= j < |b| && b[j].member.name == a[n].member.name && Reached(b, p, j);
  }

  lemma PlacedBelow(a: seq<TopologyMember>, n: nat, p: nat)
    requires n < |a| && PlaceUnder(a[..n], p, a[n].member.name, a[n].parent, a[n].depth)
    ensures p < n && a[p].member.name == a[n].parent && a[p].depth + 1 == a[n].depth
    ensures forall m :: p < m < n ==> a[m].depth >= a[n].depth
  {
    assert forall m :: 0 <= m < n ==> a[..n][m] == a[m];
  }

  /** The next names of two listings, below the same parent, are in order. */
  lemma NotAfter(a: seq<TopologyMember>, b: seq<TopologyMember>, members: seq<Member>, leader: string, n: nat)
    requires IsTopology(a, members, leader) && IsTopology(b, members, leader) && UniqueNames(members)
    requires n < |a| && n < |b| && a[..n] == b[..n] && a[n].depth == b[n].depth > 0 && a[n].parent == b[n].parent
    ensures !Less(a[n].member.name, b[n].member.name)
  {
    hide ByName, Reaches, Edge, TreesInOrder, Current, Enclosed, Less, PlaceUnder, ParentOf;
    var p, j := StillToCome(a, b, members, leader, n);
    PlacedBelow(a, n, p);
    if j == n {
      LessIrreflexive(a[n].member.name);
    } else {
      assert b[p] == b[..n][p] == a[..n][p] == a[p];
      assert b[j].depth > b[p].depth;
      assert Place(b[..j], b[j].member.name, b[j].parent, b[j].depth);
      var q :| PlaceUnder(b[..j], q, b[j].member.name, b[j].parent, b[j].depth);
      PlacedBelow(b, j, q);
      ListedNames(b, members, leader, j);
      ListedNames(b, members, leader, q);
      OneParent(members, leader, a[n].parent, b[j].parent, b[j].member.name);
      assert q == p;
      SortedUnder(b, j, p, n);
    }
  }

  lemma SortedUnder(b: seq<TopologyMember>, j: nat, p: nat, n: nat)
    requires j < |b| && PlaceUnder(b[..j], p, b[j].member.name, b[j].parent, b[j].depth) && p < n < j
    ensures b[n].depth == b[j].depth ==> !Less(b[j].member.name, b[n].member.name)
  {
    hide Less;
    assert b[..j][n] == b[n];
  }

  /** Below the top, the deeper of two continuations is the only one. */
  lemma AsDeep(a: seq<TopologyMember>, b: seq<TopologyMember>, members: seq<Member>, leader: string, n: nat)
    requires IsTopology(a, members, leader) && IsTopology(b, members, leader)
    requires n < |a| && n < |b| && a[..n] == b[..n] && a[n].depth > 0
    ensures b[n].depth >= a[n].depth
  {
    hide IsTopology, Edge;
    var p, j := StillToCome(a, b, members, leader, n);
    PlacedBelow(a, n, p);
    assert b[p] == b[..n][p] == a[..n][p] == a[p];
    assert b[n].depth > b[p].depth;
  }

  lemma SameParent(a: seq<TopologyMember>, b: seq<TopologyMember>, members: seq<Member>, leader: string, n: nat)
    requires IsTopology(a, members, leader) && IsTopology(b, members, leader)
    requires n < |a| && n < |b| && a[..n] == b[..n] && a[n].depth == b[n].depth > 0
    ensures a[n].parent == b[n].parent
  {
    hide IsTopology, Edge;
    var p, _ := StillToCome(a, b, members, leader, n);
    var q, _ := StillToCome(b, a, members, leader, n);
    PlacedBelow(a, n, p);
    PlacedBelow(b, n, q);
    assert forall m :: 0 <= m < n ==> a[m] == a[..n][m] == b[..n][m] == b[m];
    assert p == q;
  }

  lemma SameRoot(a: seq<TopologyMember>, b: seq<TopologyMember>, members: seq<Member>, leader: string, n: nat)
    requires IsTopology(a, members, leader) && IsTopology(b, members, leader)
    requires n < |a| && n < |b| && a[..n] == b[..n] && a[n].depth == b[n].depth == 0
    ensures a[n].member.name == b[n].member.name
  {
    hide ByName, Reaches, Edge, Current, Parented, Enclosed, DepthFirst;
    if a[n].member.name == leader {
      LeaderAgrees(a, b, members, leader, n);
    } else if b[n].member.name == leader {
      LeaderAgrees(b, a, members, leader, n);
    } else {
      var k :| StartsTree(a, n, members, k);
      var l :| StartsTree(b, n, members, l);
      ListedNames(a, members, leader, n);
      ListedNames(b, members, leader, n);
      assert forall m :: 0 <= m < n ==> a[m] == a[..n][m] == b[..n][m] == b[m];
    }
  }

  lemma LeaderAgrees(a: seq<TopologyMember>, b: seq<TopologyMember>, members: seq<Member>, leader: string, n: nat)
    requires IsTopology(a, members, leader) && IsTopology(b, members, leader)
    requires n < |a| && n < |b| && a[..n] == b[..n] && a[n].member.name == leader
    ensures b[n].member.name == leader
  {
    hide ByName, Reaches, Edge, Current, Parented, Enclosed, DepthFirst, TreesInOrder;
    LeaderIsFirst(a, members, leader, n);
    assert n == 0;
    ListedNames(a, members, leader, n);
    var i :| 0 <= i < |b| && b[i].member.name == leader;
    LeaderIsFirst(b, members, leader, i);
  }

  lemma NextAgrees(a: seq<TopologyMember>, b: seq<TopologyMember>, members: seq<Member>, leader: string, n: nat)
    requires IsTopology(a, members, leader) && IsTopology(b, members, leader) && UniqueNames(members)
    requires n < |a| && n < |b| && a[..n] == b[..n]
    ensures a[n] == b[n]
  {
    hide IsTopology, Less, ByName, ParentOf;
    if a[n].depth > 0 {
      AsDeep(a, b, members, leader, n);
    }
    if b[n].depth > 0 {
      AsDeep(b, a, members, leader, n);
    }
    if a[n].depth > 0 {
      SameParent(a, b, members, leader, n);
      NotAfter(a, b, members, leader, n);
      NotAfter(b, a, members, leader, n);
      LessTotal(a[n].member.name, b[n].member.name);
    } else {
      SameRoot(a, b, members, leader, n);
    }
    ListedNames(a, members, leader, n);
    ListedNames(b, members, leader, n);
    if a[n].parent != b[n].parent {
      OneRecordedParent(members, leader, a[n].member.name, a[n].parent, b[n].parent);
    }
  }

  lemma OneRecordedParent(members: seq<Member>, leader: string, name: string, p: string, q: string)
    requires UniqueNames(members) && Parent(members, leader, name, p) && Parent(members, leader, name, q)
    ensures p == q
  {
    hide ParentOf;
    if name != leader {
      OneParent(members, leader, p, q, name);
    }
  }

  /** With unique names these properties leave exactly one listing. */
  lemma {:induction false} TopologyIsDetermined(a: seq<TopologyMember>, b: seq<TopologyMember>, members: seq<Member>,
                                             leader: string)
    requires IsTopology(a, members, leader) && IsTopology(b, members, leader) && UniqueNames(members)
    ensures a == b
  {
    hide IsTopology;
    var n := 0;
    while n < |a| && n < |b|
      invariant n <= |a| && n <= |b| && a[..n] == b[..n]
    {
      NextAgrees(a, b, members, leader, n);
      assert a[..n + 1] == a[..n] + [a[n]] && b[..n + 1] == b[..n] + [b[n]];
      n := n + 1;
    }
    if n < |a| {
      NothingMore(b, a, members, leader);
    } else if n < |b| {
      NothingMore(a, b, members, leader);
    }
    assert a[..n] == a && b[..n] == b;
  }

  lemma FindListed(a: seq<TopologyMember>, members: seq<Member>, leader: string, name: string) returns (i: nat)
    requires IsTopology(a, members, leader) && name != "" && name in ByName(members)
    ensures i < |a| && a[i].member.name == name
  {
    hide ByName, Reaches, DepthFirst, Edge, Enclosed, TreesInOrder, Distinct, Parented, Current, ConnectedFirst;
    i :| 0 <= i < |a| && a[i].member.name == name;
  }

  lemma ListedOnce(a: seq<TopologyMember>, members: seq<Member>, leader: string, i: nat, j: nat)
    requires IsTopology(a, members, leader) && i < j < |a|
    ensures a[i].member.name != a[j].member.name
  {
    hide ByName, Reaches, DepthFirst, Edge, Enclosed, TreesInOrder, Parented, Current, ConnectedFirst;
  }

  lemma NothingMore(a: seq<TopologyMember>, b: seq<TopologyMember>, members: seq<Member>, leader: string)
    requires IsTopology(a, members, leader) && IsTopology(b, members, leader) && a <= b
    ensures a == b
  {
    hide IsTopology, ByName;
    if |a| < |b| {
      ListedNames(b, members, leader, |a|);
      var i := FindListed(a, members, leader, b[|a|].member.name);
      ListedOnce(b, members, leader, i, |a|);
    }
  }
}

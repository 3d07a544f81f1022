/**
 The spatial hierarchy (`src/lib/spaceTree.ts`): nesting a flat list whose parent links anybody may
 edit into roots, walking a path up, and closing a set of ids downward.
 */
module SpaceTree {
  import opened Wrappers
  import opened OrderedMap
  import opened Sorting

  const MAX_TREE_DEPTH := 32
  const SEP := " / "

  datatype SpaceKind = Building | Floor | Wing | Zone | Room | SubArea
  datatype SpaceNode = SpaceNode(id: string, parent: Option<string>, kind: SpaceKind, name: string, sortOrder: int)
  datatype Tree = Tree(node: SpaceNode, children: seq<Tree>)
  datatype PickerOption = PickerOption(id: string, name: string, kind: SpaceKind, depth: int, path: string)

  /** Where a name falls in the reader's locale; equal for names the locale does not tell apart. */
  type Collation = string -> int

  /** Siblings order by rank, then by name. */
  function SiblingLe(collate: Collation): (SpaceNode, SpaceNode) -> bool {
    (a: SpaceNode, b: SpaceNode) => a.sortOrder < b.sortOrder
      || (a.sortOrder == b.sortOrder && collate(a.name) <= collate(b.name))
  }

  // ---------------------------------------------------------------- the list as a map by id

  /** A later row with an id already seen replaces the earlier one, in its place. */
  function ById(nodes: seq<SpaceNode>): seq<Pair<SpaceNode>> {
    if nodes == [] then [] else Put(ById(nodes[..|nodes| - 1]), Pair(nodes[|nodes| - 1].id, nodes[|nodes| - 1]))
  }

  function Values(m: seq<Pair<SpaceNode>>): (r: seq<SpaceNode>)
    ensures |r| == |m| && forall i | 0 <= i < |m| :: r[i] == m[i].value
  {
    seq(|m|, i requires 0 <= i < |m| => m[i].value)
  }

  /** The rows that count: one for each id. */
  function Rows(nodes: seq<SpaceNode>): seq<SpaceNode> { Values(ById(nodes)) }

  ghost predicate DistinctIds(rows: seq<SpaceNode>) {
    forall i, j | 0 <= i < j < |rows| :: rows[i].id != rows[j].id
  }

  lemma {:induction false} ByIdKeyed(nodes: seq<SpaceNode>)
    ensures DistinctKeys(ById(nodes))
    ensures forall i | 0 <= i < |ById(nodes)| ::
      ById(nodes)[i].key == ById(nodes)[i].value.id && ById(nodes)[i].value in nodes
  {
    if nodes != [] {
      var init := nodes[..|nodes| - 1];
      ByIdKeyed(init);
      PutKeeps(ById(init), Pair(nodes[|nodes| - 1].id, nodes[|nodes| - 1]));
      assert forall x | x in init :: x in nodes;
      forall i | 0 <= i < |ById(nodes)|
        ensures ById(nodes)[i].key == ById(nodes)[i].value.id && ById(nodes)[i].value in nodes
      {
        if ById(nodes)[i] in ById(init) {
          var j :| 0 <= j < |ById(init)| && ById(init)[j] == ById(nodes)[i];
        }
      }
    }
  }

  lemma {:induction false} RowsDistinct(nodes: seq<SpaceNode>)
    ensures DistinctIds(Rows(nodes))
    ensures forall n | n in Rows(nodes) :: n in nodes && Get(ById(nodes), n.id) == Some(n)
    ensures forall id :: Get(ById(nodes), id).Some? ==>
      Get(ById(nodes), id).value in Rows(nodes) && Get(ById(nodes), id).value.id == id
  {
    ByIdKeyed(nodes);
    var m := ById(nodes);
    forall n | n in Rows(nodes) ensures n in nodes && Get(m, n.id) == Some(n) {
      var i :| 0 <= i < |m| && Rows(nodes)[i] == n;
      assert m[i].value == n;
    }
    forall id | Get(m, id).Some? ensures Get(m, id).value in Rows(nodes) && Get(m, id).value.id == id {
      var i := Find(m, id);
      assert Rows(nodes)[i.value] == m[i.value].value;
    }
  }

  // ---------------------------------------------------------------- the parent relation

  /** The parent a row is nested under; none for a root: no parent, one not in the list, or itself. */
  function ParentOf(m: seq<Pair<SpaceNode>>, n: SpaceNode): Option<SpaceNode> {
    if n.parent.None? then None
    else
      var p := Get(m, n.parent.value);
      if p.Some? && p.value.id != n.id then p else None
  }

  /** The chain from its root down to `n`, if it ends within `k` rows. */
  ghost function PathTo(m: seq<Pair<SpaceNode>>, n: SpaceNode, k: nat): Option<seq<SpaceNode>>
    decreases k
  {
    if k == 0 then None
    else
      var p := ParentOf(m, n);
      if p.None? then Some([n])
      else
        var above := PathTo(m, p.value, k - 1);
        if above.None? then None else Some(above.value + [n])
  }

  /** `m` is a map of rows by their own ids. */
  ghost predicate Keyed(m: seq<Pair<SpaceNode>>) {
    && DistinctKeys(m)
    && forall i | 0 <= i < |m| :: m[i].key == m[i].value.id
  }

  lemma {:induction false} ParentIsRow(m: seq<Pair<SpaceNode>>, n: SpaceNode)
    requires Keyed(m) && ParentOf(m, n).Some?
    ensures ParentOf(m, n).value in Values(m)
  {
    var i := Find(m, n.parent.value);
    assert Values(m)[i.value] == m[i.value].value;
  }

  lemma {:induction false} RowById(m: seq<Pair<SpaceNode>>, a: SpaceNode, b: SpaceNode)
    requires Keyed(m) && a in Values(m) && b in Values(m)
    ensures a.id == b.id ==> a == b
    ensures Get(m, a.id) == Some(a)
  {
    var i :| 0 <= i < |m| && Values(m)[i] == a;
    var j :| 0 <= j < |m| && Values(m)[j] == b;
    assert m[i].key == a.id && m[j].key == b.id;
  }

  lemma {:induction false} PathEnds(m: seq<Pair<SpaceNode>>, n: SpaceNode, k: nat)
    requires Keyed(m) && n in Values(m) && PathTo(m, n, k).Some?
    ensures var c := PathTo(m, n, k).value;
            && 1 <= |c| <= k && c[|c| - 1] == n && ParentOf(m, c[0]).None?
               && (forall i | 0 <= i < |c| :: c[i] in Values(m))
    decreases k
  {
    var p := ParentOf(m, n);
    if p.Some? {
      ParentIsRow(m, n);
      PathEnds(m, p.value, k - 1);
    }
  }

  lemma {:induction false} PathLonger(m: seq<Pair<SpaceNode>>, n: SpaceNode, k: nat, l: nat)
    requires Keyed(m) && n in Values(m) && PathTo(m, n, k).Some? && |PathTo(m, n, k).value| <= l
    ensures PathTo(m, n, l) == PathTo(m, n, k)
    decreases k
  {
    PathEnds(m, n, k);
    var p := ParentOf(m, n);
    if p.Some? {
      ParentIsRow(m, n);
      PathLonger(m, p.value, k - 1, l - 1);
    }
  }

  lemma {:induction false} PathPrefix(m: seq<Pair<SpaceNode>>, n: SpaceNode, k: nat, i: nat)
    requires Keyed(m) && n in Values(m) && PathTo(m, n, k).Some? && i < |PathTo(m, n, k).value|
    ensures var c := PathTo(m, n, k).value;
            PathTo(m, c[i], i + 1) == Some(c[..i + 1]) && (i > 0 ==> ParentOf(m, c[i]) == Some(c[i - 1]))
    decreases k
  {
    PathEnds(m, n, k);
    var c := PathTo(m, n, k).value;
    var p := ParentOf(m, n);
    if i == |c| - 1 {
      PathLast(m, n, k);
    } else {
      ParentIsRow(m, n);
      var above := PathTo(m, p.value, k - 1).value;
      PathPrefix(m, p.value, k - 1, i);
      assert c[..i + 1] == above[..i + 1];
    }
  }

  lemma {:induction false} PathLast(m: seq<Pair<SpaceNode>>, n: SpaceNode, k: nat)
    requires Keyed(m) && n in Values(m) && PathTo(m, n, k).Some?
    ensures var c := PathTo(m, n, k).value;
            && |c| > 0 && PathTo(m, c[|c| - 1], |c|) == Some(c[..|c|])
            && (|c| > 1 ==> ParentOf(m, c[|c| - 1]) == Some(c[|c| - 2]))
  {
    PathEnds(m, n, k);
    var c := PathTo(m, n, k).value;
    PathLonger(m, n, k, |c|);
    assert c[..|c|] == c;
    var p := ParentOf(m, n);
    if p.Some? {
      ParentIsRow(m, n);
      PathEnds(m, p.value, k - 1);
    }
  }

  lemma {:induction false} PathShape(m: seq<Pair<SpaceNode>>, n: SpaceNode, k: nat)
    requires Keyed(m) && n in Values(m) && PathTo(m, n, k).Some?
    ensures var c := PathTo(m, n, k).value;
            && 1 <= |c| <= k && c[|c| - 1] == n && ParentOf(m, c[0]).None?
            && (forall i | 0 <= i < |c| :: c[i] in Values(m) && PathTo(m, c[i], i + 1) == Some(c[..i + 1]))
            && (forall i | 0 < i < |c| :: ParentOf(m, c[i]) == Some(c[i - 1]))
            && (forall l | |c| <= l :: PathTo(m, n, l) == Some(c))
  {
    var c := PathTo(m, n, k).value;
    PathEnds(m, n, k);
    forall i | 0 <= i < |c|
      ensures PathTo(m, c[i], i + 1) == Some(c[..i + 1]) && (i > 0 ==> ParentOf(m, c[i]) == Some(c[i - 1]))
    {
      PathPrefix(m, n, k, i);
    }
    forall l | |c| <= l ensures PathTo(m, n, l) == Some(c) { PathLonger(m, n, k, l); }
  }

  /** No row occurs twice on a path. */
  lemma {:induction false} PathHasNoRepeat(m: seq<Pair<SpaceNode>>, n: SpaceNode, k: nat)
    requires Keyed(m) && n in Values(m) && PathTo(m, n, k).Some?
    ensures var c := PathTo(m, n, k).value; forall i, j | 0 <= i < j < |c| :: c[i].id != c[j].id
  {
    var c := PathTo(m, n, k).value;
    PathShape(m, n, k);
    forall i, j | 0 <= i < j < |c| ensures c[i].id != c[j].id {
      PathShape(m, c[i], i + 1);
      assert PathTo(m, c[i], j + 1) == Some(c[..i + 1]);
      assert PathTo(m, c[j], j + 1) == Some(c[..j + 1]);
      assert |c[..i + 1]| < |c[..j + 1]|;
      RowById(m, c[i], c[j]);
    }
  }

  // ---------------------------------------------------------------- building and pruning

  function IsRoot(m: seq<Pair<SpaceNode>>): SpaceNode -> bool {
    (n: SpaceNode) => ParentOf(m, n).None?
  }

  function IsChildOf(m: seq<Pair<SpaceNode>>, id: string): SpaceNode -> bool {
    (n: SpaceNode) => ParentOf(m, n).Some? && ParentOf(m, n).value.id == id
  }

  function ChildrenOf(m: seq<Pair<SpaceNode>>, rows: seq<SpaceNode>, id: string): seq<SpaceNode> {
    Filter(IsChildOf(m, id), rows)
  }

  function RootsOf(m: seq<Pair<SpaceNode>>, rows: seq<SpaceNode>): seq<SpaceNode> {
    Filter(IsRoot(m), rows)
  }

  /** What pruning leaves under `list`, whose rows stand at `depth` (the roots at 1) below those in `seen`. */
  ghost function Pruned(m: seq<Pair<SpaceNode>>, collate: Collation, list: seq<SpaceNode>, depth: nat,
        seen: set<string>): seq<Tree>
    requires depth <= MAX_TREE_DEPTH
    decreases MAX_TREE_DEPTH - depth, 1, |list|
  {
    if list == [] then []
    else
      [Tree(list[0], Kids(m, collate, list[0], depth, seen))] + Pruned(m, collate, list[1..], depth, seen)
  }

  ghost function Kids(m: seq<Pair<SpaceNode>>, collate: Collation, n: SpaceNode, depth: nat,
        seen: set<string>): seq<Tree>
    requires depth <= MAX_TREE_DEPTH
    decreases MAX_TREE_DEPTH - depth, 0, 0
  {
    if depth >= MAX_TREE_DEPTH || n.id in seen then []
    else Pruned(m, collate, Sort(SiblingLe(collate), ChildrenOf(m, Values(m), n.id)), depth + 1, seen + {n.id})
  }

  ghost function Forest(nodes: seq<SpaceNode>, collate: Collation): seq<Tree> {
    var m := ById(nodes);
    Pruned(m, collate, Sort(SiblingLe(collate), RootsOf(m, Values(m))), 1, {})
  }

  lemma {:induction false} FilterStep<T>(keep: T -> bool, s: seq<T>, i: nat)
    requires i < |s|
    ensures Filter(keep, s[..i + 1]) == Filter(keep, s[..i]) + (if keep(s[i]) then [s[i]] else [])
  {
    assert s[..i + 1] == s[..i] + [s[i]];
    FilterAppend(keep, s[..i], [s[i]]);
    assert Filter(keep, [s[i]][1..]) == [];
  }

  /** Every row's children so far, in row order. */
  ghost predicate Grouped(m: seq<Pair<SpaceNode>>, rows: seq<SpaceNode>, children: map<string, seq<SpaceNode>>) {
    && (forall r | r in Values(m) :: r.id in children)
    && (forall k | k in children :: children[k] == ChildrenOf(m, rows, k))
  }

  method IndexById(nodes: seq<SpaceNode>) returns (byId: seq<Pair<SpaceNode>>)
    ensures byId == ById(nodes) && Keyed(byId)
  {
    byId := [];
    for i := 0 to |nodes|
      invariant byId == ById(nodes[..i])
    {
      assert nodes[..i + 1][..i] == nodes[..i];
      byId := Put(byId, Pair(nodes[i].id, nodes[i]));
    }
    assert nodes[..|nodes|] == nodes;
    ByIdKeyed(nodes);
  }

  lemma {:induction false} GroupChild(m: seq<Pair<SpaceNode>>, rows: seq<SpaceNode>, i: nat,
        children: map<string, seq<SpaceNode>>)
    requires i < |rows| && Grouped(m, rows[..i], children) && ParentOf(m, rows[i]).Some?
    requires ParentOf(m, rows[i]).value in Values(m)
    ensures var p := ParentOf(m, rows[i]).value.id;
            p in children && Grouped(m, rows[..i + 1], children[p := children[p] + [rows[i]]])
  {
    forall k | k in children ensures ChildrenOf(m, rows[..i + 1], k) ==
                                     ChildrenOf(m, rows[..i], k)
                                       + (if k == ParentOf(m, rows[i]).value.id then [rows[i]] else []) {
      FilterStep(IsChildOf(m, k), rows, i);
    }
  }

  lemma {:induction false} GroupRoot(m: seq<Pair<SpaceNode>>, rows: seq<SpaceNode>, i: nat,
        children: map<string, seq<SpaceNode>>)
    requires i < |rows| && Grouped(m, rows[..i], children) && ParentOf(m, rows[i]).None?
    ensures Grouped(m, rows[..i + 1], children)
  {
    forall k | k in children ensures ChildrenOf(m, rows[..i + 1], k) == ChildrenOf(m, rows[..i], k) {
      FilterStep(IsChildOf(m, k), rows, i);
    }
  }

  method Group(byId: seq<Pair<SpaceNode>>) returns (top: seq<SpaceNode>, children: map<string, seq<SpaceNode>>)
    requires Keyed(byId)
    ensures top == RootsOf(byId, Values(byId)) && Grouped(byId, Values(byId), children)
  {
    var rows := Values(byId);
    top := [];
    children := map r | r in rows :: r.id := [];
    for i := 0 to |rows|
      invariant top == RootsOf(byId, rows[..i])
      invariant Grouped(byId, rows[..i], children)
    {
      var n := rows[i];
      FilterStep(IsRoot(byId), rows, i);
      var parent := if n.parent.None? then None else Get(byId, n.parent.value);
      if parent.Some? && parent.value.id != n.id {
        ParentIsRow(byId, n);
        GroupChild(byId, rows, i, children);
        children := children[parent.value.id := children[parent.value.id] + [n]];
      } else {
        GroupRoot(byId, rows, i, children);
        top := top + [n];
      }
    }
    assert rows[..|rows|] == rows;
  }

  method BuildTree(nodes: seq<SpaceNode>, collate: Collation) returns (roots: seq<Tree>)
    ensures roots == Forest(nodes, collate)
  {
    var byId := IndexById(nodes);
    var top, children := Group(byId);
    var sorted := Sort(SiblingLe(collate), top);
    SortElements(SiblingLe(collate), top);
    FilterMembers(IsRoot(byId), Values(byId));
    roots := Prune(byId, children, collate, sorted, 1, {});
  }

  lemma {:induction false} PrunedFrom(m: seq<Pair<SpaceNode>>, collate: Collation, list: seq<SpaceNode>, i: nat,
        depth: nat, seen: set<string>)
    requires i < |list| && depth <= MAX_TREE_DEPTH
    ensures Pruned(m, collate, list[i..], depth, seen) ==
            [Tree(list[i], Kids(m, collate, list[i], depth, seen))] + Pruned(m, collate, list[i + 1..], depth, seen)
  {
    assert list[i..][1..] == list[i + 1..];
  }

  method Prune(ghost m: seq<Pair<SpaceNode>>, children: map<string, seq<SpaceNode>>, collate: Collation,
               list: seq<SpaceNode>, depth: nat, seen: set<string>) returns (out: seq<Tree>)
    requires depth <= MAX_TREE_DEPTH && Grouped(m, Values(m), children)
    requires forall n | n in list :: n in Values(m)
    ensures out == Pruned(m, collate, list, depth, seen)
    decreases MAX_TREE_DEPTH - depth, 1
  {
    out := [];
    for i := 0 to |list|
      invariant out + Pruned(m, collate, list[i..], depth, seen) == Pruned(m, collate, list, depth, seen)
    {
      PrunedFrom(m, collate, list, i, depth, seen);
      var kids := PruneNode(m, children, collate, list[i], depth, seen);
      out := out + [Tree(list[i], kids)];
    }
    assert list[|list|..] == [];
  }

  method PruneNode(ghost m: seq<Pair<SpaceNode>>, children: map<string, seq<SpaceNode>>, collate: Collation,
                   n: SpaceNode, depth: nat, seen: set<string>) returns (kids: seq<Tree>)
    requires depth <= MAX_TREE_DEPTH && Grouped(m, Values(m), children) && n in Values(m)
    ensures kids == Kids(m, collate, n, depth, seen)
    decreases MAX_TREE_DEPTH - depth, 0
  {
    if depth >= MAX_TREE_DEPTH || n.id in seen { return []; }
    var sorted := Sort(SiblingLe(collate), children[n.id]);
    SortElements(SiblingLe(collate), children[n.id]);
    FilterMembers(IsChildOf(m, n.id), Values(m));
    kids := Prune(m, children, collate, sorted, depth + 1, seen + {n.id});
  }

  // ---------------------------------------------------------------- the picker

  /** The tree as options in reading order. */
  function Walk(list: seq<Tree>, depth: int, prefix: string): seq<PickerOption> {
    if list == [] then []
    else
      var n := list[0].node;
      var path := if prefix == "" then n.name else prefix + SEP + n.name;
      [PickerOption(n.id, n.name, n.kind, depth, path)] + Walk(list[0].children, depth + 1, path)
        + Walk(list[1..], depth, prefix)
  }

  /** The path the picker gives the last row of a chain. */
  ghost function PickerPath(chain: seq<SpaceNode>): string {
    if chain == [] then ""
    else
      var prefix := PickerPath(chain[..|chain| - 1]);
      var name := chain[|chain| - 1].name;
      if prefix == "" then name else prefix + SEP + name
  }

  /** The chain's names joined. */
  function Joined(chain: seq<SpaceNode>): string {
    if chain == [] then ""
    else if |chain| == 1 then chain[0].name
    else Joined(chain[..|chain| - 1]) + SEP + chain[|chain| - 1].name
  }

  lemma {:induction false} PathsOfNamedRoot(chain: seq<SpaceNode>)
    requires chain != [] && chain[0].name != ""
    ensures PickerPath(chain) == Joined(chain) != ""
  {
    if |chain| > 1 { PathsOfNamedRoot(chain[..|chain| - 1]); }
  }

  lemma {:induction false} PathsOfUnnamedRoot(chain: seq<SpaceNode>)
    requires |chain| > 1 && chain[0].name == ""
    ensures |PickerPath(chain)| < |Joined(chain)|
  {
    if |chain| == 2 {
      assert PickerPath(chain[..1]) == "";
    } else {
      PathsOfUnnamedRoot(chain[..|chain| - 1]);
    }
  }

  /** The picker's path is the joined names exactly when the root is named, or is the row itself. */
  lemma {:induction false} PathsAgreeExactly(chain: seq<SpaceNode>)
    requires chain != []
    ensures PickerPath(chain) == Joined(chain) <==> |chain| == 1 || chain[0].name != ""
  {
    if chain[0].name != "" {
      PathsOfNamedRoot(chain);
    } else if |chain| > 1 {
      PathsOfUnnamedRoot(chain);
    } else {
      assert PickerPath(chain[..0]) == "";
    }
  }

  ghost function Count(options: seq<PickerOption>, id: string): nat {
    if options == [] then 0 else (if options[0].id == id then 1 else 0) + Count(options[1..], id)
  }

  lemma {:induction false} CountConcat(a: seq<PickerOption>, b: seq<PickerOption>, id: string)
    ensures Count(a + b, id) == Count(a, id) + Count(b, id)
  {
    if a == [] {
      assert a + b == b;
    } else {
      assert (a + b)[1..] == a[1..] + b;
      CountConcat(a[1..], b, id);
    }
  }

  /** The rows of `list` hang from the chain `above`. */
  ghost predicate Hangs(m: seq<Pair<SpaceNode>>, above: seq<SpaceNode>, list: seq<SpaceNode>) {
    && |above| < MAX_TREE_DEPTH
    && NoRepeats(list)
    && (forall n | n in list :: n in Values(m) && PathTo(m, n, MAX_TREE_DEPTH) == Some(above + [n]))
  }

  ghost function Ids(chain: seq<SpaceNode>): set<string> { set n | n in chain :: n.id }

  /** `x`'s chain, of at most 32 rows, passes through `above` and then a row of `list`. */
  ghost predicate Beneath(m: seq<Pair<SpaceNode>>, x: SpaceNode, above: seq<SpaceNode>, list: seq<SpaceNode>) {
    var c := PathTo(m, x, MAX_TREE_DEPTH);
    c.Some? && |above| < |c.value| && c.value[..|above|] == above && c.value[|above|] in list
  }

  /** The children of a row hang from it, and a row seen above never comes round again. */
  lemma {:induction false} ChildrenHang(m: seq<Pair<SpaceNode>>, collate: Collation, above: seq<SpaceNode>,
        n: SpaceNode)
    requires Keyed(m) && n in Values(m) && PathTo(m, n, MAX_TREE_DEPTH) == Some(above + [n])
    requires |above| + 1 < MAX_TREE_DEPTH
    ensures Hangs(m, above + [n], Sort(SiblingLe(collate), ChildrenOf(m, Values(m), n.id)))
    ensures forall k :: k in Sort(SiblingLe(collate), ChildrenOf(m, Values(m), n.id)) <==>
      k in Values(m) && ParentOf(m, k) == Some(n)
  {
    var kids := ChildrenOf(m, Values(m), n.id);
    FilterMembers(IsChildOf(m, n.id), Values(m));
    SortElements(SiblingLe(collate), kids);
    ValuesNoRepeats(m);
    FilterNoRepeats(IsChildOf(m, n.id), Values(m));
    SortNoRepeats(SiblingLe(collate), kids);
    PathShape(m, n, MAX_TREE_DEPTH);
    forall k ensures k in kids <==> k in Values(m) && ParentOf(m, k) == Some(n) {
      if k in Values(m) && ParentOf(m, k).Some? {
        ParentIsRow(m, k);
        RowById(m, ParentOf(m, k).value, n);
      }
    }
  }

  lemma {:induction false} ValuesNoRepeats(m: seq<Pair<SpaceNode>>)
    requires Keyed(m)
    ensures NoRepeats(Values(m))
  {
    forall i, j | 0 <= i < j < |m| ensures Values(m)[i] != Values(m)[j] {
      assert m[i].key != m[j].key;
    }
  }

  lemma {:induction false} NotSeenAbove(m: seq<Pair<SpaceNode>>, above: seq<SpaceNode>, n: SpaceNode)
    requires Keyed(m) && n in Values(m) && PathTo(m, n, MAX_TREE_DEPTH) == Some(above + [n])
    ensures n.id !in Ids(above)
    ensures Ids(above + [n]) == Ids(above) + {n.id}
  {
    PathHasNoRepeat(m, n, MAX_TREE_DEPTH);
    var c := above + [n];
    forall a | a in above ensures a.id != n.id {
      var i :| 0 <= i < |above| && above[i] == a;
      assert c[i].id != c[|above|].id;
    }
  }

  /** `x`'s chain passes through `above` and then `n`. */
  ghost predicate Through(m: seq<Pair<SpaceNode>>, x: SpaceNode, above: seq<SpaceNode>, n: SpaceNode) {
    var c := PathTo(m, x, MAX_TREE_DEPTH);
    c.Some? && |above| < |c.value| && c.value[..|above|] == above && c.value[|above|] == n
  }

  /** Passing through `n` is ending there, or going on through one of its children; not both. */
  lemma {:induction false} ThroughSplits(m: seq<Pair<SpaceNode>>, collate: Collation, x: SpaceNode,
        above: seq<SpaceNode>, n: SpaceNode)
    requires Keyed(m) && x in Values(m) && n in Values(m) && PathTo(m, n, MAX_TREE_DEPTH) == Some(above + [n])
    ensures var below := |above| + 1 < MAX_TREE_DEPTH
                         && Beneath(m, x, above + [n], Sort(SiblingLe(collate), ChildrenOf(m, Values(m), n.id)));
            (Through(m, x, above, n) <==> x == n || below) && !(x == n && below)
  {
    if Through(m, x, above, n) && x != n {
      ThroughGoesOn(m, collate, x, above, n);
    }
    if |above| + 1 < MAX_TREE_DEPTH
      && Beneath(m, x, above + [n], Sort(SiblingLe(collate), ChildrenOf(m, Values(m), n.id))) {
      BelowIsThrough(m, x, above, n, Sort(SiblingLe(collate), ChildrenOf(m, Values(m), n.id)));
    }
  }

  lemma {:induction false} ThroughGoesOn(m: seq<Pair<SpaceNode>>, collate: Collation, x: SpaceNode,
        above: seq<SpaceNode>, n: SpaceNode)
    requires Keyed(m) && x in Values(m) && n in Values(m) && PathTo(m, n, MAX_TREE_DEPTH) == Some(above + [n])
    requires Through(m, x, above, n) && x != n
    ensures |above| + 1 < MAX_TREE_DEPTH
    ensures Beneath(m, x, above + [n], Sort(SiblingLe(collate), ChildrenOf(m, Values(m), n.id)))
  {
    var c := PathTo(m, x, MAX_TREE_DEPTH).value;
    var p := |above|;
    PathShape(m, x, MAX_TREE_DEPTH);
    assert c[|c| - 1] == x && p + 1 < |c| <= MAX_TREE_DEPTH;
    ChildrenHang(m, collate, above, n);
    assert c[..p + 1] == above + [n];
    assert ParentOf(m, c[p + 1]) == Some(c[p]);
  }

  lemma {:induction false} BelowIsThrough(m: seq<Pair<SpaceNode>>, x: SpaceNode, above: seq<SpaceNode>, n: SpaceNode,
        list: seq<SpaceNode>)
    requires Beneath(m, x, above + [n], list) && PathTo(m, n, MAX_TREE_DEPTH) == Some(above + [n])
    ensures Through(m, x, above, n) && x != n
  {
    var c := PathTo(m, x, MAX_TREE_DEPTH).value;
    var p := |above|;
    assert c[..p] == c[..p + 1][..p] && c[p] == c[..p + 1][p];
  }

  lemma {:induction false} BeneathSplits(m: seq<Pair<SpaceNode>>, x: SpaceNode, above: seq<SpaceNode>,
        list: seq<SpaceNode>)
    requires list != [] && NoRepeats(list)
    ensures Beneath(m, x, above, list) <==> Through(m, x, above, list[0]) || Beneath(m, x, above, list[1..])
    ensures !(Through(m, x, above, list[0]) && Beneath(m, x, above, list[1..]))
  {
    assert list == [list[0]] + list[1..];
  }

  ghost function PrunedCount(m: seq<Pair<SpaceNode>>, collate: Collation, id: string, above: seq<SpaceNode>,
        list: seq<SpaceNode>, prefix: string): nat
    requires |above| < MAX_TREE_DEPTH
  {
    Count(Walk(Pruned(m, collate, list, |above| + 1, Ids(above)), |above|, prefix), id)
  }

  lemma {:induction false} PrunedCountStep(m: seq<Pair<SpaceNode>>, collate: Collation, id: string,
        above: seq<SpaceNode>, list: seq<SpaceNode>, prefix: string)
    requires |above| < MAX_TREE_DEPTH && list != [] && list[0].id !in Ids(above)
    requires Ids(above + [list[0]]) == Ids(above) + {list[0].id}
    ensures var n := list[0];
            var path := if prefix == "" then n.name else prefix + SEP + n.name;
            PrunedCount(m, collate, id, above, list, prefix) ==
            (if n.id == id then 1 else 0)
            + (if |above| + 1 < MAX_TREE_DEPTH
               then PrunedCount(m, collate, id, above + [n], Sort(SiblingLe(collate), ChildrenOf(m, Values(m), n.id)),
                 path) else 0)
            + PrunedCount(m, collate, id, above, list[1..], prefix)
  {
    var n := list[0];
    var trees := Pruned(m, collate, list, |above| + 1, Ids(above));
    WalkCount(trees, |above|, prefix, id);
    assert trees[0] == Tree(n, Kids(m, collate, n, |above| + 1, Ids(above)));
    assert trees[1..] == Pruned(m, collate, list[1..], |above| + 1, Ids(above));
    KidsCount(m, collate, id, above, n, if prefix == "" then n.name else prefix + SEP + n.name);
  }

  lemma {:induction false} KidsCount(m: seq<Pair<SpaceNode>>, collate: Collation, id: string, above: seq<SpaceNode>,
        n: SpaceNode, path: string)
    requires |above| < MAX_TREE_DEPTH && n.id !in Ids(above) && Ids(above + [n]) == Ids(above) + {n.id}
    ensures Count(Walk(Kids(m, collate, n, |above| + 1, Ids(above)), |above| + 1, path), id) ==
            if |above| + 1 < MAX_TREE_DEPTH
            then PrunedCount(m, collate, id, above + [n], Sort(SiblingLe(collate), ChildrenOf(m, Values(m), n.id)),
              path) else 0
  {
    assert Walk([], |above| + 1, path) == [];
  }

  /** Walking what pruning leaves under `list` meets each row beneath it once, and no other. */
  lemma {:induction false} MetOnce(m: seq<Pair<SpaceNode>>, collate: Collation, x: SpaceNode, above: seq<SpaceNode>,
        list: seq<SpaceNode>, prefix: string)
    requires Keyed(m) && x in Values(m) && Hangs(m, above, list)
    ensures PrunedCount(m, collate, x.id, above, list, prefix) == if Beneath(m, x, above, list) then 1 else 0
    decreases MAX_TREE_DEPTH - |above|, |list|
  {
    if list != [] {
      var n := list[0];
      var path := if prefix == "" then n.name else prefix + SEP + n.name;
      NotSeenAbove(m, above, n);
      PrunedCountStep(m, collate, x.id, above, list, prefix);
      MetOnce(m, collate, x, above, list[1..], prefix);
      BeneathSplits(m, x, above, list);
      ThroughSplits(m, collate, x, above, n);
      RowById(m, x, n);
      if |above| + 1 < MAX_TREE_DEPTH {
        ChildrenHang(m, collate, above, n);
        MetOnce(m, collate, x, above + [n], Sort(SiblingLe(collate), ChildrenOf(m, Values(m), n.id)), path);
      }
    }
  }

  lemma {:induction false} WalkCount(list: seq<Tree>, depth: int, prefix: string, id: string)
    requires list != []
    ensures var n := list[0].node;
            var path := if prefix == "" then n.name else prefix + SEP + n.name;
            Count(Walk(list, depth, prefix), id) ==
            (if n.id == id then 1 else 0) + Count(Walk(list[0].children, depth + 1, path), id)
              + Count(Walk(list[1..], depth, prefix), id)
  {
    var n := list[0].node;
    var path := if prefix == "" then n.name else prefix + SEP + n.name;
    var head := [PickerOption(n.id, n.name, n.kind, depth, path)];
    var kids, rest := Walk(list[0].children, depth + 1, path), Walk(list[1..], depth, prefix);
    CountConcat(head + kids, rest, id);
    CountConcat(head, kids, id);
    assert head[1..] == [];
  }

  /** The option a row's chain gives. */
  ghost function OptionOf(chain: seq<SpaceNode>): PickerOption
    requires chain != []
  {
    var n := chain[|chain| - 1];
    PickerOption(n.id, n.name, n.kind, |chain| - 1, PickerPath(chain))
  }

  ghost predicate IsRowsOption(m: seq<Pair<SpaceNode>>, o: PickerOption) {
    exists n :: n in Values(m) && PathTo(m, n, MAX_TREE_DEPTH).Some? && PathTo(m, n, MAX_TREE_DEPTH).value != []
                && o == OptionOf(PathTo(m, n, MAX_TREE_DEPTH).value)
  }

  lemma {:induction false} OptionsAreRows(m: seq<Pair<SpaceNode>>, collate: Collation, above: seq<SpaceNode>,
        list: seq<SpaceNode>)
    requires Keyed(m) && Hangs(m, above, list)
    ensures forall o | o in Walk(Pruned(m, collate, list, |above| + 1, Ids(above)), |above|, PickerPath(above)) ::
      IsRowsOption(m, o)
    decreases MAX_TREE_DEPTH - |above|, |list|
  {
    if list != [] {
      var n := list[0];
      var depth := |above| + 1;
      var chain := above + [n];
      assert chain[..|above|] == above;
      NotSeenAbove(m, above, n);
      OptionsAreRows(m, collate, above, list[1..]);
      if depth < MAX_TREE_DEPTH {
        ChildrenHang(m, collate, above, n);
        OptionsAreRows(m, collate, chain, Sort(SiblingLe(collate), ChildrenOf(m, Values(m), n.id)));
      }
      var trees := Pruned(m, collate, list, depth, Ids(above));
      assert trees[0] == Tree(n, Kids(m, collate, n, depth, Ids(above)));
      assert trees[1..] == Pruned(m, collate, list[1..], depth, Ids(above));
      assert IsRowsOption(m, OptionOf(chain));
    }
  }

  lemma {:induction false} RootsHang(m: seq<Pair<SpaceNode>>, collate: Collation)
    requires Keyed(m)
    ensures Hangs(m, [], Sort(SiblingLe(collate), RootsOf(m, Values(m))))
    ensures forall k :: k in Sort(SiblingLe(collate), RootsOf(m, Values(m))) <==> k in Values(m) && ParentOf(m, k).None?
  {
    var roots := RootsOf(m, Values(m));
    FilterMembers(IsRoot(m), Values(m));
    SortElements(SiblingLe(collate), roots);
    ValuesNoRepeats(m);
    FilterNoRepeats(IsRoot(m), Values(m));
    SortNoRepeats(SiblingLe(collate), roots);
    assert forall n: SpaceNode :: [] + [n] == [n];
  }

  lemma {:induction false} MetOnceFromRoots(m: seq<Pair<SpaceNode>>, collate: Collation, x: SpaceNode)
    requires Keyed(m) && x in Values(m)
    ensures PrunedCount(m, collate, x.id, [], Sort(SiblingLe(collate), RootsOf(m, Values(m))), "")
            == if PathTo(m, x, MAX_TREE_DEPTH).Some? then 1 else 0
  {
    RootsHang(m, collate);
    MetOnce(m, collate, x, [], Sort(SiblingLe(collate), RootsOf(m, Values(m))), "");
    if PathTo(m, x, MAX_TREE_DEPTH).Some? {
      PathShape(m, x, MAX_TREE_DEPTH);
    }
  }

  /** What the picker lists. */
  ghost function Options(nodes: seq<SpaceNode>, collate: Collation): seq<PickerOption> {
    Walk(Forest(nodes, collate), 0, "")
  }

  /**
   The picker, and so the tree, holds each row whose chain of parents ends within 32 rows exactly once;
   cycles, what hangs below them, and what lies deeper are absent.
   */
  lemma {:induction false} TreeHoldsTheGroundedOnce(nodes: seq<SpaceNode>, collate: Collation, x: SpaceNode)
    requires x in Rows(nodes)
    ensures Count(Options(nodes, collate), x.id) == if PathTo(ById(nodes), x, MAX_TREE_DEPTH).Some? then 1 else 0
  {
    ByIdKeyed(nodes);
    assert Ids([]) == {};
    MetOnceFromRoots(ById(nodes), collate, x);
  }

  /** It holds nothing else, and gives each row the depth and path of its chain. */
  lemma {:induction false} TreeHoldsNothingElse(nodes: seq<SpaceNode>, collate: Collation)
    ensures forall o | o in Options(nodes, collate) :: IsRowsOption(ById(nodes), o)
  {
    var m := ById(nodes);
    ByIdKeyed(nodes);
    RootsHang(m, collate);
    assert Ids([]) == {};
    OptionsAreRows(m, collate, [], Sort(SiblingLe(collate), RootsOf(m, Values(m))));
  }

  // ---------------------------------------------------------------- reading order

  lemma {:induction false} SiblingOrder(collate: Collation)
    ensures TotalPreorder(SiblingLe(collate))
  {}

  /** Of lower rank, or of one rank and no later by name. */
  ghost predicate Precedes(collate: Collation, a: SpaceNode, b: SpaceNode) {
    a.sortOrder < b.sortOrder || (a.sortOrder == b.sortOrder && collate(a.name) <= collate(b.name))
  }

  /** At every level siblings stand in order. */
  ghost predicate InOrder(collate: Collation, list: seq<Tree>) {
    && (forall i, j | 0 <= i < j < |list| :: Precedes(collate, list[i].node, list[j].node))
    && (forall i | 0 <= i < |list| :: InOrder(collate, list[i].children))
  }

  lemma {:induction false} PrunedInOrder(m: seq<Pair<SpaceNode>>, collate: Collation, list: seq<SpaceNode>, depth: nat,
        seen: set<string>)
    requires depth <= MAX_TREE_DEPTH && SortedBy(SiblingLe(collate), list)
    ensures InOrder(collate, Pruned(m, collate, list, depth, seen))
    ensures |Pruned(m, collate, list, depth, seen)| == |list|
    ensures forall i | 0 <= i < |list| :: Pruned(m, collate, list, depth, seen)[i].node == list[i]
    decreases MAX_TREE_DEPTH - depth, |list|, 1
  {
    if list != [] {
      PrunedInOrder(m, collate, list[1..], depth, seen);
      KidsInOrder(m, collate, list[0], depth, seen, |list|);
    }
  }

  lemma {:induction false} KidsInOrder(m: seq<Pair<SpaceNode>>, collate: Collation, n: SpaceNode, depth: nat,
        seen: set<string>, size: nat)
    requires depth <= MAX_TREE_DEPTH
    ensures InOrder(collate, Kids(m, collate, n, depth, seen))
    decreases MAX_TREE_DEPTH - depth, size, 0
  {
    if depth < MAX_TREE_DEPTH {
      var kids := ChildrenOf(m, Values(m), n.id);
      SiblingOrder(collate);
      SortSorted(SiblingLe(collate), kids);
      PrunedInOrder(m, collate, Sort(SiblingLe(collate), kids), depth + 1, seen + {n.id});
    }
  }

  lemma {:induction false} TreeIsInOrder(nodes: seq<SpaceNode>, collate: Collation)
    ensures InOrder(collate, Forest(nodes, collate))
  {
    var m := ById(nodes);
    SiblingOrder(collate);
    SortSorted(SiblingLe(collate), RootsOf(m, Values(m)));
    PrunedInOrder(m, collate, Sort(SiblingLe(collate), RootsOf(m, Values(m))), 1, {});
  }

  // ---------------------------------------------------------------- the list in reading order

  /** The row an option stands for. */
  ghost function RowOf(m: seq<Pair<SpaceNode>>, o: PickerOption): Option<SpaceNode> { Get(m, o.id) }

  /** Option `p` is the nearest before option `i` that is a level up, and its row is the parent of `i`'s. */
  ghost predicate ParentAt(m: seq<Pair<SpaceNode>>, os: seq<PickerOption>, i: int, p: int) {
    && 0 <= p < i < |os| && os[p].depth == os[i].depth - 1
    && (forall k | p < k < i :: os[k].depth >= os[i].depth)
    && RowOf(m, os[p]).Some? && RowOf(m, os[i]).Some? && ParentOf(m, RowOf(m, os[i]).value) == RowOf(m, os[p])
  }

  /** Two options with one parent, or two roots. */
  ghost predicate Siblings(m: seq<Pair<SpaceNode>>, a: PickerOption, b: PickerOption) {
    && RowOf(m, a).Some? && RowOf(m, b).Some? && a.depth == b.depth
    && ParentOf(m, RowOf(m, a).value) == ParentOf(m, RowOf(m, b).value)
  }

  /** An option of the first level, or one whose parent stands before it. */
  ghost predicate Placed(m: seq<Pair<SpaceNode>>, depth: int, os: seq<PickerOption>, i: int) {
    && 0 <= i < |os| && RowOf(m, os[i]).Some? && os[i].depth >= depth
    && (os[i].depth > depth ==> exists p :: ParentAt(m, os, i, p))
  }

  ghost predicate AllPlaced(m: seq<Pair<SpaceNode>>, depth: int, os: seq<PickerOption>) {
    forall i | 0 <= i < |os| :: Placed(m, depth, os, i)
  }

  ghost predicate IsKidOf(m: seq<Pair<SpaceNode>>, n: SpaceNode, o: PickerOption) {
    RowOf(m, o).Some? && ParentOf(m, RowOf(m, o).value) == Some(n)
  }

  /** The options read from the top: each under its own parent, and siblings by rank and then name. */
  ghost predicate Reads(m: seq<Pair<SpaceNode>>, collate: Collation, depth: int, os: seq<PickerOption>) {
    && AllPlaced(m, depth, os)
    && (forall i, j | 0 <= i < j < |os| && Siblings(m, os[i], os[j]) ::
          Precedes(collate, RowOf(m, os[i]).value, RowOf(m, os[j]).value))
  }

  /** An option of a row beneath `list`, at the depth of its chain. */
  ghost predicate OfFamily(m: seq<Pair<SpaceNode>>, above: seq<SpaceNode>, list: seq<SpaceNode>, o: PickerOption) {
    && RowOf(m, o).Some? && RowOf(m, o).value in Values(m) && Beneath(m, RowOf(m, o).value, above, list)
    && o.depth == |PathTo(m, RowOf(m, o).value, MAX_TREE_DEPTH).value| - 1
  }

  ghost predicate AllOfFamily(m: seq<Pair<SpaceNode>>, above: seq<SpaceNode>, list: seq<SpaceNode>,
                              os: seq<PickerOption>)
  {
    forall i | 0 <= i < |os| :: OfFamily(m, above, list, os[i])
  }

  ghost function Listed(m: seq<Pair<SpaceNode>>, collate: Collation, above: seq<SpaceNode>, list: seq<SpaceNode>):
    seq<PickerOption>
    requires |above| < MAX_TREE_DEPTH
  {
    Walk(Pruned(m, collate, list, |above| + 1, Ids(above)), |above|, PickerPath(above))
  }

  ghost function KidsListed(m: seq<Pair<SpaceNode>>, collate: Collation, chain: seq<SpaceNode>): seq<PickerOption>
    requires 0 < |chain| <= MAX_TREE_DEPTH
  {
    if |chain| >= MAX_TREE_DEPTH then []
    else
      var n := chain[|chain| - 1];
      Listed(m, collate, chain, Sort(SiblingLe(collate), ChildrenOf(m, Values(m), n.id)))
  }

  /** The first row, what is beneath it, and the rest. */
  lemma {:induction false} ListedStep(m: seq<Pair<SpaceNode>>, collate: Collation, above: seq<SpaceNode>,
        list: seq<SpaceNode>)
    requires Keyed(m) && Hangs(m, above, list) && list != []
    ensures |above + [list[0]]| <= MAX_TREE_DEPTH
    ensures Listed(m, collate, above, list) ==
            [OptionOf(above + [list[0]])] + KidsListed(m, collate, above + [list[0]])
              + Listed(m, collate, above, list[1..])
  {
    var n, chain := list[0], above + [list[0]];
    assert n in list;
    NotSeenAbove(m, above, n);
    assert chain[..|above|] == above;
    var trees := Pruned(m, collate, list, |above| + 1, Ids(above));
    assert trees[0] == Tree(n, Kids(m, collate, n, |above| + 1, Ids(above)));
    assert trees[1..] == Pruned(m, collate, list[1..], |above| + 1, Ids(above));
    assert Walk([], |above| + 1, PickerPath(chain)) == [];
  }

  lemma {:induction false} HangsOn(m: seq<Pair<SpaceNode>>, above: seq<SpaceNode>, list: seq<SpaceNode>)
    requires Hangs(m, above, list) && list != []
    ensures Hangs(m, above, list[1..]) && list[0] !in list[1..]
    ensures list[0] in Values(m) && PathTo(m, list[0], MAX_TREE_DEPTH) == Some(above + [list[0]])
  {
    assert list[0] in list;
    assert forall n | n in list[1..] :: n in list;
    forall i, j | 0 <= i < j < |list[1..]| ensures list[1..][i] != list[1..][j] { assert list[i + 1] != list[j + 1]; }
    forall i | 0 <= i < |list[1..]| ensures list[1..][i] != list[0] { assert list[i + 1] != list[0]; }
  }

  lemma {:induction false} FamilyGrows(m: seq<Pair<SpaceNode>>, above: seq<SpaceNode>, part: seq<SpaceNode>,
        list: seq<SpaceNode>,
                                       os: seq<PickerOption>)
    requires AllOfFamily(m, above, part, os) && forall n | n in part :: n in list
    ensures AllOfFamily(m, above, list, os)
  {
    forall i | 0 <= i < |os| ensures OfFamily(m, above, list, os[i]) { assert OfFamily(m, above, part, os[i]); }
  }

  lemma {:induction false} FamilyOfKids(m: seq<Pair<SpaceNode>>, above: seq<SpaceNode>, n: SpaceNode,
        kids: seq<SpaceNode>,
                                        os: seq<PickerOption>)
    requires AllOfFamily(m, above + [n], kids, os) && PathTo(m, n, MAX_TREE_DEPTH) == Some(above + [n])
    ensures AllOfFamily(m, above, [n], os)
  {
    forall i | 0 <= i < |os| ensures OfFamily(m, above, [n], os[i]) {
      assert OfFamily(m, above + [n], kids, os[i]);
      BelowIsThrough(m, RowOf(m, os[i]).value, above, n, kids);
    }
  }

  lemma {:induction false} FamilyJoins(m: seq<Pair<SpaceNode>>, above: seq<SpaceNode>, list: seq<SpaceNode>,
        head: PickerOption,
                                       kids: seq<PickerOption>, rest: seq<PickerOption>)
    requires OfFamily(m, above, list, head) && AllOfFamily(m, above, list, kids) && AllOfFamily(m, above, list, rest)
    ensures AllOfFamily(m, above, list, [head] + kids + rest)
  {
    var os := [head] + kids + rest;
    forall i | 0 <= i < |os| ensures OfFamily(m, above, list, os[i]) {
      if 0 < i <= |kids| {
        assert os[i] == kids[i - 1];
      } else if i > 0 {
        assert os[i] == rest[i - 1 - |kids|];
      }
    }
  }

  lemma {:induction false} OptionOfRow(m: seq<Pair<SpaceNode>>, above: seq<SpaceNode>, list: seq<SpaceNode>)
    requires Keyed(m) && Hangs(m, above, list) && list != []
    ensures var o := OptionOf(above + [list[0]]);
            RowOf(m, o) == Some(list[0]) && o.depth == |above| && OfFamily(m, above, list, o)
  {
    HangsOn(m, above, list);
    RowById(m, list[0], list[0]);
    assert (above + [list[0]])[..|above|] == above;
  }

  lemma {:induction false} ListedAreFamily(m: seq<Pair<SpaceNode>>, collate: Collation, above: seq<SpaceNode>,
                                           list: seq<SpaceNode>)
    requires Keyed(m) && Hangs(m, above, list)
    ensures AllOfFamily(m, above, list, Listed(m, collate, above, list))
    decreases MAX_TREE_DEPTH - |above|, |list|
  {
    if list != [] {
      var n, chain := list[0], above + [list[0]];
      HangsOn(m, above, list);
      ListedStep(m, collate, above, list);
      ListedAreFamily(m, collate, above, list[1..]);
      FamilyGrows(m, above, list[1..], list, Listed(m, collate, above, list[1..]));
      if |chain| < MAX_TREE_DEPTH {
        var kids := Sort(SiblingLe(collate), ChildrenOf(m, Values(m), n.id));
        ChildrenHang(m, collate, above, n);
        ListedAreFamily(m, collate, chain, kids);
        FamilyOfKids(m, above, n, kids, KidsListed(m, collate, chain));
        FamilyGrows(m, above, [n], list, KidsListed(m, collate, chain));
      }
      OptionOfRow(m, above, list);
      FamilyJoins(m, above, list, OptionOf(chain), KidsListed(m, collate, chain), Listed(m, collate, above, list[1..]));
    }
  }

  /** An option at the first level of a family is of a row of `list`. */
  lemma {:induction false} FirstOfFamily(m: seq<Pair<SpaceNode>>, above: seq<SpaceNode>, list: seq<SpaceNode>,
        o: PickerOption)
    requires Keyed(m) && OfFamily(m, above, list, o)
    ensures o.depth >= |above| && (o.depth == |above| ==> RowOf(m, o).value in list)
  {
    PathShape(m, RowOf(m, o).value, MAX_TREE_DEPTH);
  }

  /** Options beneath different rows are no siblings. */
  lemma {:induction false} NoCousinSiblings(m: seq<Pair<SpaceNode>>, above: seq<SpaceNode>, n: SpaceNode,
        list: seq<SpaceNode>,
                                            a: PickerOption, b: PickerOption)
    requires Keyed(m) && OfFamily(m, above, [n], a) && a.depth > |above| && OfFamily(m, above, list, b) && n !in list
    ensures !Siblings(m, a, b)
  {
    SameBranch(m, RowOf(m, a).value, RowOf(m, b).value, |above|);
  }

  /** Two rows with one parent are beneath the same rows. */
  lemma {:induction false} SameBranch(m: seq<Pair<SpaceNode>>, x: SpaceNode, y: SpaceNode, d: nat)
    requires Keyed(m) && x in Values(m) && y in Values(m)
    requires PathTo(m, x, MAX_TREE_DEPTH).Some? && PathTo(m, y, MAX_TREE_DEPTH).Some?
    ensures var c, e := PathTo(m, x, MAX_TREE_DEPTH).value, PathTo(m, y, MAX_TREE_DEPTH).value;
            |c| == |e| && d + 1 < |c| && ParentOf(m, x) == ParentOf(m, y) ==> c[d] == e[d]
  {
    PathShape(m, x, MAX_TREE_DEPTH);
    PathShape(m, y, MAX_TREE_DEPTH);
    var c, e := PathTo(m, x, MAX_TREE_DEPTH).value, PathTo(m, y, MAX_TREE_DEPTH).value;
    if |c| == |e| && d + 1 < |c| && ParentOf(m, x) == ParentOf(m, y) {
      var k := |c| - 2;
      assert ParentOf(m, c[k + 1]) == Some(c[k]) && ParentOf(m, e[k + 1]) == Some(e[k]);
      assert PathTo(m, c[k], k + 1) == Some(c[..k + 1]) && PathTo(m, e[k], k + 1) == Some(e[..k + 1]);
      assert c[d] == c[..k + 1][d] == e[..k + 1][d] == e[d];
    }
  }

  lemma {:induction false} ParentShifts(m: seq<Pair<SpaceNode>>, a: seq<PickerOption>, b: seq<PickerOption>,
        c: seq<PickerOption>,
                                        i: int, p: int)
    requires ParentAt(m, b, i, p)
    ensures ParentAt(m, a + b + c, |a| + i, |a| + p)
  {
    var os := a + b + c;
    assert forall k | 0 <= k < |b| :: os[|a| + k] == b[k];
    forall k | |a| + p < k < |a| + i ensures os[k].depth >= os[|a| + i].depth {
      assert os[k] == b[k - |a|];
    }
  }

  lemma {:induction false} PlacedShifts(m: seq<Pair<SpaceNode>>, depth: int, a: seq<PickerOption>, b: seq<PickerOption>,
                                        c: seq<PickerOption>, i: int)
    requires Placed(m, depth, b, i)
    ensures Placed(m, depth, a + b + c, |a| + i)
  {
    assert (a + b + c)[|a| + i] == b[i];
    if b[i].depth > depth {
      var p :| ParentAt(m, b, i, p);
      ParentShifts(m, a, b, c, i, p);
    }
  }

  /** What is beneath a row stands under it. */
  lemma {:induction false} KidsPlaced(m: seq<Pair<SpaceNode>>, depth: int, head: PickerOption, n: SpaceNode,
        kids: seq<PickerOption>,
                                      rest: seq<PickerOption>, i: int)
    requires RowOf(m, head) == Some(n) && head.depth == depth && 0 <= i < |kids|
    requires AllPlaced(m, depth + 1, kids) && (kids[i].depth == depth + 1 ==> IsKidOf(m, n, kids[i]))
    ensures Placed(m, depth, [head] + kids + rest, i + 1)
  {
    var os := [head] + kids + rest;
    PlacedShifts(m, depth + 1, [head], kids, rest, i);
    if kids[i].depth == depth + 1 {
      forall k | 0 < k < i + 1 ensures os[k].depth >= depth + 1 {
        assert os[k] == kids[k - 1] && Placed(m, depth + 1, kids, k - 1);
      }
      assert ParentAt(m, os, i + 1, 0);
    }
  }

  ghost predicate SiblingsInOrder(m: seq<Pair<SpaceNode>>, collate: Collation, a: PickerOption, b: PickerOption) {
    Siblings(m, a, b) ==> Precedes(collate, RowOf(m, a).value, RowOf(m, b).value)
  }

  ghost predicate OrderedAcross(m: seq<Pair<SpaceNode>>, collate: Collation, a: seq<PickerOption>,
        b: seq<PickerOption>)
  {
    forall i, j | 0 <= i < |a| && 0 <= j < |b| :: SiblingsInOrder(m, collate, a[i], b[j])
  }

  ghost predicate OrderedWithin(m: seq<Pair<SpaceNode>>, collate: Collation, os: seq<PickerOption>) {
    forall i, j | 0 <= i < j < |os| :: SiblingsInOrder(m, collate, os[i], os[j])
  }

  lemma {:induction false} OrderJoins(m: seq<Pair<SpaceNode>>, collate: Collation, a: seq<PickerOption>,
        b: seq<PickerOption>)
    requires OrderedWithin(m, collate, a) && OrderedWithin(m, collate, b) && OrderedAcross(m, collate, a, b)
    ensures OrderedWithin(m, collate, a + b)
  {
    var os := a + b;
    forall i, j | 0 <= i < j < |os| ensures SiblingsInOrder(m, collate, os[i], os[j]) {
      if i >= |a| {
        assert os[i] == b[i - |a|] && os[j] == b[j - |a|];
      } else if j >= |a| {
        assert os[i] == a[i] && os[j] == b[j - |a|];
      } else {
        assert os[i] == a[i] && os[j] == a[j];
      }
    }
  }

  lemma {:induction false} ReadsJoin(m: seq<Pair<SpaceNode>>, collate: Collation, depth: int, head: PickerOption,
        n: SpaceNode,
                                     kids: seq<PickerOption>, rest: seq<PickerOption>)
    requires Reads(m, collate, depth + 1, kids) && Reads(m, collate, depth, rest)
    requires RowOf(m, head) == Some(n) && head.depth == depth
    requires forall k | 0 <= k < |kids| && kids[k].depth == depth + 1 :: IsKidOf(m, n, kids[k])
    requires OrderedAcross(m, collate, [head], rest) && OrderedAcross(m, collate, kids, rest)
    ensures Reads(m, collate, depth, [head] + kids + rest)
  {
    var os := [head] + kids + rest;
    forall i | 0 <= i < |os| ensures Placed(m, depth, os, i) {
      if 0 < i <= |kids| {
        KidsPlaced(m, depth, head, n, kids, rest, i - 1);
      } else if i > 0 {
        PlacedShifts(m, depth, [head] + kids, rest, [], i - 1 - |kids|);
        assert [head] + kids + rest + [] == os;
      }
    }
    JoinedInOrder(m, collate, depth, head, kids, rest);
  }

  lemma {:induction false} JoinedInOrder(m: seq<Pair<SpaceNode>>, collate: Collation, depth: int, head: PickerOption,
                                         kids: seq<PickerOption>, rest: seq<PickerOption>)
    requires Reads(m, collate, depth + 1, kids) && Reads(m, collate, depth, rest) && head.depth == depth
    requires OrderedAcross(m, collate, [head], rest) && OrderedAcross(m, collate, kids, rest)
    ensures OrderedWithin(m, collate, [head] + kids + rest)
  {
    forall j | 0 <= j < |kids|
      ensures SiblingsInOrder(m, collate, head, kids[j]) { assert Placed(m, depth + 1, kids, j); }
    OrderJoins(m, collate, [head], kids);
    assert OrderedAcross(m, collate, [head] + kids, rest) by {
      forall i, j | 0 <= i < |[head] + kids| && 0 <= j < |rest|
        ensures SiblingsInOrder(m, collate, ([head] + kids)[i], rest[j])
      {
        if i == 0 { assert SiblingsInOrder(m, collate, [head][0], rest[j]); }
        else { assert SiblingsInOrder(m, collate, kids[i - 1], rest[j]); }
      }
    }
    OrderJoins(m, collate, [head] + kids, rest);
  }

  lemma {:induction false} HeadBeforeRest(m: seq<Pair<SpaceNode>>, collate: Collation, above: seq<SpaceNode>,
        list: seq<SpaceNode>,
                                          rest: seq<PickerOption>)
    requires Keyed(m) && Hangs(m, above, list) && list != [] && SortedBy(SiblingLe(collate), list)
    requires AllOfFamily(m, above, list[1..], rest)
    ensures OrderedAcross(m, collate, [OptionOf(above + [list[0]])], rest)
  {
    OptionOfRow(m, above, list);
    var head := OptionOf(above + [list[0]]);
    forall j | 0 <= j < |rest| ensures SiblingsInOrder(m, collate, head, rest[j]) {
      assert OfFamily(m, above, list[1..], rest[j]);
      FirstOfFamily(m, above, list[1..], rest[j]);
      if Siblings(m, head, rest[j]) {
        var i :| 0 <= i < |list[1..]| && list[1..][i] == RowOf(m, rest[j]).value;
        assert SiblingLe(collate)(list[0], list[i + 1]);
      }
    }
  }

  lemma {:induction false} KidsBeforeRest(m: seq<Pair<SpaceNode>>, collate: Collation, above: seq<SpaceNode>,
        list: seq<SpaceNode>,
                                          kids: seq<PickerOption>, rest: seq<PickerOption>)
    requires Keyed(m) && list != [] && list[0] !in list[1..]
    requires AllOfFamily(m, above, [list[0]], kids) && AllOfFamily(m, above, list[1..], rest)
    requires forall i | 0 <= i < |kids| :: kids[i].depth > |above|
    ensures OrderedAcross(m, collate, kids, rest)
  {
    forall i, j | 0 <= i < |kids| && 0 <= j < |rest| ensures SiblingsInOrder(m, collate, kids[i], rest[j]) {
      assert OfFamily(m, above, [list[0]], kids[i]) && OfFamily(m, above, list[1..], rest[j]);
      NoCousinSiblings(m, above, list[0], list[1..], kids[i], rest[j]);
    }
  }

  lemma {:induction false} KidsRead(m: seq<Pair<SpaceNode>>, collate: Collation, above: seq<SpaceNode>, n: SpaceNode)
    requires Keyed(m) && n in Values(m) && PathTo(m, n, MAX_TREE_DEPTH) == Some(above + [n])
    ensures |above + [n]| <= MAX_TREE_DEPTH
    ensures var kids := KidsListed(m, collate, above + [n]);
            Reads(m, collate, |above| + 1, kids) && AllOfFamily(m, above, [n], kids) && AreKids(m, |above|, n, kids)
    decreases MAX_TREE_DEPTH - |above|, 0
  {
    PathShape(m, n, MAX_TREE_DEPTH);
    if |above| + 1 < MAX_TREE_DEPTH {
      var list := Sort(SiblingLe(collate), ChildrenOf(m, Values(m), n.id));
      ChildrenHang(m, collate, above, n);
      SiblingOrder(collate);
      SortSorted(SiblingLe(collate), ChildrenOf(m, Values(m), n.id));
      ListedRead(m, collate, above + [n], list);
      ListedAreFamily(m, collate, above + [n], list);
      FamilyOfKids(m, above, n, list, KidsListed(m, collate, above + [n]));
      FamilyAreKids(m, above, n, list, KidsListed(m, collate, above + [n]));
    }
  }

  ghost predicate AreKids(m: seq<Pair<SpaceNode>>, depth: int, n: SpaceNode, os: seq<PickerOption>) {
    forall k | 0 <= k < |os| :: os[k].depth > depth && (os[k].depth == depth + 1 ==> IsKidOf(m, n, os[k]))
  }

  lemma {:induction false} FamilyAreKids(m: seq<Pair<SpaceNode>>, above: seq<SpaceNode>, n: SpaceNode,
        list: seq<SpaceNode>,
                                         os: seq<PickerOption>)
    requires Keyed(m) && AllOfFamily(m, above + [n], list, os) && forall k | k in list :: ParentOf(m, k) == Some(n)
    ensures AreKids(m, |above|, n, os)
  {
    forall k | 0 <= k < |os| ensures os[k].depth > |above| && (os[k].depth == |above| + 1 ==> IsKidOf(m, n, os[k])) {
      assert OfFamily(m, above + [n], list, os[k]);
      FirstOfFamily(m, above + [n], list, os[k]);
    }
  }

  lemma {:induction false} ListedRead(m: seq<Pair<SpaceNode>>, collate: Collation, above: seq<SpaceNode>,
        list: seq<SpaceNode>)
    requires Keyed(m) && Hangs(m, above, list) && SortedBy(SiblingLe(collate), list)
    ensures Reads(m, collate, |above|, Listed(m, collate, above, list))
    decreases MAX_TREE_DEPTH - |above|, 1 + |list|
  {
    if list != [] {
      HangsOn(m, above, list);
      RestIsSorted(collate, list);
      ListedRead(m, collate, above, list[1..]);
      KidsRead(m, collate, above, list[0]);
      FirstAndRestRead(m, collate, above, list);
    }
  }

  lemma {:induction false} RestIsSorted(collate: Collation, list: seq<SpaceNode>)
    requires list != [] && SortedBy(SiblingLe(collate), list)
    ensures SortedBy(SiblingLe(collate), list[1..])
  {
    assert forall i, j | 0 <= i < j < |list[1..]| :: list[1..][i] == list[i + 1] && list[1..][j] == list[j + 1];
  }

  lemma {:induction false} FirstAndRestRead(m: seq<Pair<SpaceNode>>, collate: Collation, above: seq<SpaceNode>,
        list: seq<SpaceNode>)
    requires Keyed(m) && Hangs(m, above, list) && SortedBy(SiblingLe(collate), list) && list != []
    requires |above + [list[0]]| <= MAX_TREE_DEPTH && list[0] !in list[1..] && Hangs(m, above, list[1..])
    requires Reads(m, collate, |above|, Listed(m, collate, above, list[1..]))
    requires var kids := KidsListed(m, collate, above + [list[0]]);
             && Reads(m, collate, |above| + 1, kids) && AllOfFamily(m, above, [list[0]], kids)
             && AreKids(m, |above|, list[0], kids)
    ensures Reads(m, collate, |above|, Listed(m, collate, above, list))
  {
    var n, kids, rest := list[0], KidsListed(m, collate, above + [list[0]]), Listed(m, collate, above, list[1..]);
    ListedStep(m, collate, above, list);
    ListedAreFamily(m, collate, above, list[1..]);
    OptionOfRow(m, above, list);
    HeadBeforeRest(m, collate, above, list, rest);
    KidsBeforeRest(m, collate, above, list, kids, rest);
    ReadsJoin(m, collate, |above|, OptionOf(above + [n]), n, kids, rest);
  }

  /** The picker's options read from the top, whatever the parent links. */
  lemma {:induction false} OptionsRead(nodes: seq<SpaceNode>, collate: Collation)
    ensures Reads(ById(nodes), collate, 0, Options(nodes, collate))
  {
    var m := ById(nodes);
    ByIdKeyed(nodes);
    RootsHang(m, collate);
    SiblingOrder(collate);
    SortSorted(SiblingLe(collate), RootsOf(m, Values(m)));
    assert Ids([]) == {};
    ListedRead(m, collate, [], Sort(SiblingLe(collate), RootsOf(m, Values(m))));
  }

  /** The chain of `b`'s row goes through `a`'s. */
  ghost predicate Leads(m: seq<Pair<SpaceNode>>, a: PickerOption, b: PickerOption) {
    && RowOf(m, a).Some? && RowOf(m, b).Some? && PathTo(m, RowOf(m, b).value, MAX_TREE_DEPTH).Some?
    && RowOf(m, a).value in PathTo(m, RowOf(m, b).value, MAX_TREE_DEPTH).value
  }

  lemma {:induction false} ListedOnce(os: seq<PickerOption>, i: int, j: int)
    requires 0 <= i < |os| && 0 <= j < |os| && os[i].id == os[j].id && Count(os, os[i].id) <= 1
    ensures i == j
  {
    if i < j { CountedTwice(os, i, j); }
    if j < i { CountedTwice(os, j, i); }
  }

  lemma {:induction false} CountedTwice(os: seq<PickerOption>, i: int, j: int)
    requires 0 <= i < j < |os| && os[i].id == os[j].id
    ensures Count(os, os[i].id) >= 2
  {
    var id := os[i].id;
    assert os == os[..j] + os[j..] && os[..j] == os[..i] + os[i..j];
    CountConcat(os[..j], os[j..], id);
    CountConcat(os[..i], os[i..j], id);
    assert os[j..][0] == os[j] && os[i..j][0] == os[i];
  }

  lemma {:induction false} OptionIsOfItsRow(m: seq<Pair<SpaceNode>>, o: PickerOption)
    requires Keyed(m) && IsRowsOption(m, o)
    ensures RowOf(m, o).Some? && RowOf(m, o).value in Values(m) && RowOf(m, o).value.id == o.id
    ensures var c := PathTo(m, RowOf(m, o).value, MAX_TREE_DEPTH); c.Some? && o.depth == |c.value| - 1
  {
    var n :| n in Values(m) && PathTo(m, n, MAX_TREE_DEPTH).Some? && PathTo(m, n, MAX_TREE_DEPTH).value != []
             && o == OptionOf(PathTo(m, n, MAX_TREE_DEPTH).value);
    PathShape(m, n, MAX_TREE_DEPTH);
    RowById(m, n, n);
  }

  /** What the picker offers, as its contract has it. */
  ghost predicate Offered(m: seq<Pair<SpaceNode>>, collate: Collation, os: seq<PickerOption>) {
    && Keyed(m) && Reads(m, collate, 0, os) && (forall i | 0 <= i < |os| :: IsRowsOption(m, os[i]))
    && (forall i | 0 <= i < |os| :: Count(os, os[i].id) == 1)
  }

  lemma {:induction false} ChainOfParent(m: seq<Pair<SpaceNode>>, collate: Collation, os: seq<PickerOption>, j: int,
        p: int)
    requires Offered(m, collate, os) && ParentAt(m, os, j, p)
    ensures var c := PathTo(m, RowOf(m, os[j]).value, MAX_TREE_DEPTH);
            && c.Some? && |c.value| == os[j].depth + 1 && c.value[|c.value| - 1] == RowOf(m, os[j]).value
            && PathTo(m, RowOf(m, os[p]).value, MAX_TREE_DEPTH) == Some(c.value[..|c.value| - 1])
  {
    OptionIsOfItsRow(m, os[j]);
    PathShape(m, RowOf(m, os[j]).value, MAX_TREE_DEPTH);
    var c := PathTo(m, RowOf(m, os[j]).value, MAX_TREE_DEPTH).value;
    OptionIsOfItsRow(m, os[p]);
    PathShape(m, RowOf(m, os[p]).value, MAX_TREE_DEPTH);
    var k := |c| - 2;
    assert ParentOf(m, c[k + 1]) == Some(c[k]) && PathTo(m, c[k], k + 1) == Some(c[..k + 1]);
    var d := PathTo(m, RowOf(m, os[p]).value, MAX_TREE_DEPTH).value;
    assert PathTo(m, c[k], k + 1) == Some(d);
  }

  /** What is beneath a row comes after it, with nothing as high as the row between. */
  lemma {:induction false} ComesAfter(m: seq<Pair<SpaceNode>>, collate: Collation, os: seq<PickerOption>, i: int,
        j: int)
    requires Offered(m, collate, os) && 0 <= i < |os| && 0 <= j < |os| && i != j && Leads(m, os[i], os[j])
    ensures i < j && forall k | i < k <= j :: os[k].depth > os[i].depth
    decreases j
  {
    NotARoot(m, collate, os, i, j);
    var p :| ParentAt(m, os, j, p);
    ChainOfParent(m, collate, os, j, p);
    LeadsByTheParent(m, collate, os, i, j, p);
    if i != p { ComesAfter(m, collate, os, i, p); }
    DeeperOn(m, os, i, j, p);
  }

  lemma {:induction false} DeeperOn(m: seq<Pair<SpaceNode>>, os: seq<PickerOption>, i: int, j: int, p: int)
    requires ParentAt(m, os, j, p) && 0 <= i <= p && forall k | i < k <= p :: os[k].depth > os[i].depth
    ensures i < j && forall k | i < k <= j :: os[k].depth > os[i].depth
  {}

  lemma {:induction false} NotARoot(m: seq<Pair<SpaceNode>>, collate: Collation, os: seq<PickerOption>, i: int, j: int)
    requires Offered(m, collate, os) && 0 <= i < |os| && 0 <= j < |os| && i != j && Leads(m, os[i], os[j])
    ensures RowOf(m, os[i]) != RowOf(m, os[j])
    ensures exists p :: ParentAt(m, os, j, p)
  {
    assert Placed(m, 0, os, j);
    OptionIsOfItsRow(m, os[i]);
    OptionIsOfItsRow(m, os[j]);
    if os[i].id == os[j].id { ListedOnce(os, i, j); }
    PathShape(m, RowOf(m, os[j]).value, MAX_TREE_DEPTH);
  }

  lemma {:induction false} LeadsByTheParent(m: seq<Pair<SpaceNode>>, collate: Collation, os: seq<PickerOption>, i: int,
        j: int,
                                            p: int)
    requires Offered(m, collate, os) && 0 <= i < |os| && ParentAt(m, os, j, p) && Leads(m, os[i], os[j])
    requires RowOf(m, os[i]) != RowOf(m, os[j])
    ensures Leads(m, os[i], os[p])
  {
    ChainOfParent(m, collate, os, j, p);
    var c := PathTo(m, RowOf(m, os[j]).value, MAX_TREE_DEPTH).value;
    var k :| 0 <= k < |c| && c[k] == RowOf(m, os[i]).value;
    assert c[..|c| - 1][k] == c[k];
  }

  lemma {:induction false} DeeperIsBeneath(m: seq<Pair<SpaceNode>>, collate: Collation, os: seq<PickerOption>, i: int,
        k: int)
    requires Offered(m, collate, os) && 0 <= i < k < |os| && forall l | i < l <= k :: os[l].depth > os[i].depth
    ensures Leads(m, os[i], os[k])
    decreases k
  {
    assert Placed(m, 0, os, i) && Placed(m, 0, os, k);
    var p :| ParentAt(m, os, k, p);
    ChainOfParent(m, collate, os, k, p);
    OptionIsOfItsRow(m, os[i]);
    PathShape(m, RowOf(m, os[i]).value, MAX_TREE_DEPTH);
    if p != i {
      assert p > i;
      DeeperIsBeneath(m, collate, os, i, p);
    }
  }

  /**
   The options beneath a row follow it without a gap: whatever stands between it and one of them is beneath it too.
   */
  lemma {:induction false} BeneathFollowsWithoutAGap(nodes: seq<SpaceNode>, collate: Collation, i: int, k: int, j: int)
    requires 0 <= i < k < |Options(nodes, collate)| && 0 <= j < |Options(nodes, collate)|
    requires k <= j && Leads(ById(nodes), Options(nodes, collate)[i], Options(nodes, collate)[j])
    ensures Leads(ById(nodes), Options(nodes, collate)[i], Options(nodes, collate)[k])
  {
    var m, os := ById(nodes), Options(nodes, collate);
    ByIdKeyed(nodes);
    OptionsRead(nodes, collate);
    TreeHoldsNothingElse(nodes, collate);
    forall l | 0 <= l < |os| ensures IsRowsOption(m, os[l]) && Count(os, os[l].id) == 1 {
      assert os[l] in os;
      OptionIsOfItsRow(m, os[l]);
      TreeHoldsTheGroundedOnce(nodes, collate, RowOf(m, os[l]).value);
    }
    ComesAfter(m, collate, os, i, j);
    DeeperIsBeneath(m, collate, os, i, k);
  }

  /**
   Every row whose chain ends within 32 rows is offered once,
   with the depth and the path of its chain, and nothing else is.
   */
  ghost predicate OffersTheGrounded(nodes: seq<SpaceNode>, options: seq<PickerOption>) {
    && (forall x | x in Rows(nodes) ::
       Count(options, x.id) == if PathTo(ById(nodes), x, MAX_TREE_DEPTH).Some? then 1 else 0)
    && (forall o | o in options :: IsRowsOption(ById(nodes), o))
  }

  method FlattenForPicker(nodes: seq<SpaceNode>, collate: Collation) returns (options: seq<PickerOption>)
    ensures OffersTheGrounded(nodes, options) && Reads(ById(nodes), collate, 0, options)
    ensures options == Options(nodes, collate)
  {
    var roots := BuildTree(nodes, collate);
    options := Walk(roots, 0, "");
    TreeHoldsNothingElse(nodes, collate);
    OptionsRead(nodes, collate);
    forall x | x in Rows(nodes)
      ensures Count(Options(nodes, collate), x.id) == if PathTo(ById(nodes), x, MAX_TREE_DEPTH).Some? then 1 else 0
    {
      TreeHoldsTheGroundedOnce(nodes, collate, x);
    }
  }

  // ---------------------------------------------------------------- walking a path up

  /** The row `nodePath` steps to: an empty parent id counts as none, and a row may be its own parent. */
  function Above(m: seq<Pair<SpaceNode>>, n: SpaceNode): Option<SpaceNode> {
    if n.parent.None? || n.parent.value == "" then None else Get(m, n.parent.value)
  }

  /** `up` is a walk up from `n`, row by row, with no row twice. */
  ghost predicate WalkUp(m: seq<Pair<SpaceNode>>, n: SpaceNode, up: seq<SpaceNode>) {
    && up != [] && up[0] == n
    && (forall i, j | 0 <= i < j < |up| && j == i + 1 :: Above(m, up[i]) == Some(up[j]))
    && (forall i, j | 0 <= i < j < |up| :: up[i].id != up[j].id)
  }

  /** It stopped because the top has nothing above it, or comes round again, or the walk is 33 rows long. */
  ghost predicate Stopped(m: seq<Pair<SpaceNode>>, up: seq<SpaceNode>)
    requires up != []
  {
    || Above(m, up[|up| - 1]).None?
    || (exists i :: 0 <= i < |up| && up[i].id == Above(m, up[|up| - 1]).value.id)
    || |up| == MAX_TREE_DEPTH + 1
  }

  function Reversed<T>(s: seq<T>): (r: seq<T>)
    ensures |r| == |s| && forall i | 0 <= i < |s| :: r[i] == s[|s| - 1 - i]
  {
    if s == [] then [] else Reversed(s[1..]) + [s[0]]
  }

  /**
   What `nodePath` returns for an id: nothing for none, an empty
   or an unknown one, else the stopped walk up, from the top.
   */
  ghost predicate IsNodePath(nodes: seq<SpaceNode>, id: Option<string>, path: seq<SpaceNode>) {
    var m := ById(nodes);
    if id.None? || id.value == "" || Get(m, id.value).None? then path == []
    else
      path != [] && WalkUp(m, Get(m, id.value).value, Reversed(path)) && Stopped(m, Reversed(path))
        && |path| <= MAX_TREE_DEPTH + 1
  }

  method NodePath(nodes: seq<SpaceNode>, id: Option<string>) returns (path: seq<SpaceNode>)
    ensures IsNodePath(nodes, id, path)
  {
    if id.None? || id.value == "" { return []; }
    var byId := IndexById(nodes);
    var start := Get(byId, id.value);
    if start.None? { return []; }
    var chain := Climb(byId, start.value);
    path := Reversed(chain);
    assert Reversed(path) == chain;
  }

  lemma {:induction false} UpGrows(m: seq<Pair<SpaceNode>>, n: SpaceNode, chain: seq<SpaceNode>, next: SpaceNode)
    requires next.id !in Ids(chain)
    requires if chain == [] then next == n else WalkUp(m, n, chain) && Above(m, chain[|chain| - 1]) == Some(next)
    ensures WalkUp(m, n, chain + [next]) && Ids(chain + [next]) == Ids(chain) + {next.id}
  {
    forall i | 0 <= i < |chain| ensures chain[i].id != next.id {
      assert chain[i] in chain;
    }
  }

  method Climb(byId: seq<Pair<SpaceNode>>, n: SpaceNode) returns (chain: seq<SpaceNode>)
    ensures WalkUp(byId, n, chain) && Stopped(byId, chain) && |chain| <= MAX_TREE_DEPTH + 1
  {
    chain := [];
    var seen: set<string> := {};
    var cursor := Some(n);
    while cursor.Some? && cursor.value.id !in seen && |chain| <= MAX_TREE_DEPTH
      invariant |chain| <= MAX_TREE_DEPTH + 1 && seen == Ids(chain)
      invariant if chain == [] then cursor == Some(n)
                else WalkUp(byId, n, chain) && cursor == Above(byId, chain[|chain| - 1])
      decreases MAX_TREE_DEPTH + 1 - |chain|
    {
      UpGrows(byId, n, chain, cursor.value);
      seen := seen + {cursor.value.id};
      chain := chain + [cursor.value];
      cursor := Above(byId, cursor.value);
    }
  }

  /** A chain of rows from a root down, none twice. */
  ghost predicate IsChain(m: seq<Pair<SpaceNode>>, c: seq<SpaceNode>) {
    && c != [] && (forall i | 0 <= i < |c| :: c[i] in Values(m)) && ParentOf(m, c[0]).None?
    && (forall i, j | 0 <= i < j < |c| && j == i + 1 :: ParentOf(m, c[j]) == Some(c[i]))
    && (forall i, j | 0 <= i < j < |c| :: c[i].id != c[j].id)
  }

  lemma {:induction false} PathIsChain(m: seq<Pair<SpaceNode>>, n: SpaceNode)
    requires Keyed(m) && n in Values(m) && PathTo(m, n, MAX_TREE_DEPTH).Some?
    ensures var c := PathTo(m, n, MAX_TREE_DEPTH).value; IsChain(m, c) && |c| <= MAX_TREE_DEPTH && c[|c| - 1] == n
  {
    PathShape(m, n, MAX_TREE_DEPTH);
    PathHasNoRepeat(m, n, MAX_TREE_DEPTH);
  }

  /** How much of a chain the walk up never sees: all down to the last row with an empty id. */
  ghost function Hidden(c: seq<SpaceNode>): (h: nat)
    ensures h <= |c|
    ensures forall i | h <= i < |c| :: c[i].id != ""
    ensures h > 0 ==> c[h - 1].id == ""
  {
    if c == [] then 0 else if c[|c| - 1].id == "" then |c| else Hidden(c[..|c| - 1])
  }

  /** One step up a chain: to the parent, unless that has an empty id; and at a root nowhere new. */
  lemma {:induction false} StepUp(m: seq<Pair<SpaceNode>>, c: seq<SpaceNode>, j: nat)
    requires Keyed(m) && IsChain(m, c) && Hidden(c) <= j < |c|
    ensures j > Hidden(c) ==> Above(m, c[j]) == Some(c[j - 1])
    ensures j == Hidden(c) ==> Above(m, c[j]).None? || Above(m, c[j]).value.id == c[j].id
  {
    if j > 0 {
      assert ParentOf(m, c[j]) == Some(c[j - 1]);
      KeyOfParent(m, c[j]);
    }
  }

  lemma {:induction false} KeyOfParent(m: seq<Pair<SpaceNode>>, n: SpaceNode)
    requires Keyed(m) && ParentOf(m, n).Some?
    ensures n.parent == Some(ParentOf(m, n).value.id) && Get(m, n.parent.value) == ParentOf(m, n)
  {}

  lemma {:induction false} UpFollowsChain(m: seq<Pair<SpaceNode>>, c: seq<SpaceNode>, up: seq<SpaceNode>, k: nat)
    requires Keyed(m) && IsChain(m, c) && Hidden(c) < |c|
    requires WalkUp(m, c[|c| - 1], up) && k < |up|
    ensures k < |c| - Hidden(c) && up[k] == c[|c| - 1 - k]
  {
    if k > 0 {
      UpFollowsChain(m, c, up, k - 1);
      StepUp(m, c, |c| - k);
      assert Above(m, up[k - 1]) == Some(up[k]);
      assert up[k - 1].id != up[k].id;
    }
  }

  lemma {:induction false} NotStoppedEarly(m: seq<Pair<SpaceNode>>, c: seq<SpaceNode>, up: seq<SpaceNode>)
    requires Keyed(m) && IsChain(m, c) && |c| <= MAX_TREE_DEPTH
    requires WalkUp(m, c[|c| - 1], up) && |up| < |c| - Hidden(c)
    ensures !Stopped(m, up)
  {
    var k := |up| - 1;
    var j := |c| - 1 - k;
    UpFollowsChain(m, c, up, k);
    StepUp(m, c, j);
    assert Above(m, up[k]) == Some(c[j - 1]);
    forall i | 0 <= i < |up| ensures up[i].id != c[j - 1].id {
      UpFollowsChain(m, c, up, i);
      assert c[j - 1].id != c[|c| - 1 - i].id;
    }
  }

  lemma {:induction false} UpIsAsLong(m: seq<Pair<SpaceNode>>, c: seq<SpaceNode>, up: seq<SpaceNode>)
    requires Keyed(m) && IsChain(m, c) && Hidden(c) < |c| <= MAX_TREE_DEPTH
    requires WalkUp(m, c[|c| - 1], up) && Stopped(m, up)
    ensures |up| == |c| - Hidden(c)
  {
    UpFollowsChain(m, c, up, |up| - 1);
    if |up| < |c| - Hidden(c) { NotStoppedEarly(m, c, up); }
  }

  lemma {:induction false} UpIsReversed(m: seq<Pair<SpaceNode>>, c: seq<SpaceNode>, up: seq<SpaceNode>)
    requires Keyed(m) && IsChain(m, c) && Hidden(c) < |c| <= MAX_TREE_DEPTH
    requires WalkUp(m, c[|c| - 1], up) && Stopped(m, up)
    ensures Reversed(up) == c[Hidden(c)..]
  {
    var h := Hidden(c);
    UpIsAsLong(m, c, up);
    forall i | 0 <= i < |c| - h ensures Reversed(up)[i] == c[h..][i] {
      UpFollowsChain(m, c, up, |c| - h - 1 - i);
    }
  }

  /** For a row whose chain ends within 32 rows, the path is what of that chain lies below the last empty id. */
  lemma {:induction false} NodePathIsTheSeenChain(nodes: seq<SpaceNode>, n: SpaceNode, path: seq<SpaceNode>)
    requires n in Rows(nodes) && PathTo(ById(nodes), n, MAX_TREE_DEPTH).Some? && IsNodePath(nodes, Some(n.id), path)
    ensures var c := PathTo(ById(nodes), n, MAX_TREE_DEPTH).value; path == c[Hidden(c)..]
  {
    var m := ById(nodes);
    ByIdKeyed(nodes);
    RowsDistinct(nodes);
    PathIsChain(m, n);
    var c := PathTo(m, n, MAX_TREE_DEPTH).value;
    if n.id != "" {
      UpIsReversed(m, c, Reversed(path));
      assert Reversed(Reversed(path)) == path;
    }
  }

  /** It is the whole chain, whatever cycles there are elsewhere, exactly when no id on the chain is empty. */
  lemma {:induction false} NodePathIsTheChain(nodes: seq<SpaceNode>, n: SpaceNode, path: seq<SpaceNode>)
    requires n in Rows(nodes) && PathTo(ById(nodes), n, MAX_TREE_DEPTH).Some? && IsNodePath(nodes, Some(n.id), path)
    ensures var c := PathTo(ById(nodes), n, MAX_TREE_DEPTH).value;
            path == c <==> forall i | 0 <= i < |c| :: c[i].id != ""
  {
    NodePathIsTheSeenChain(nodes, n, path);
    var c := PathTo(ById(nodes), n, MAX_TREE_DEPTH).value;
    assert |c[Hidden(c)..]| == |c| - Hidden(c);
    assert Hidden(c) == 0 ==> c[0..] == c;
  }

  ghost predicate IsPathLabel(nodes: seq<SpaceNode>, id: Option<string>, text: string) {
    exists path :: IsNodePath(nodes, id, path) && text == Joined(path)
  }

  method PathLabel(nodes: seq<SpaceNode>, id: Option<string>) returns (text: string)
    ensures IsPathLabel(nodes, id, text)
  {
    var path := NodePath(nodes, id);
    text := Joined(path);
  }

  /** The rows above the walk are nameless, and what it sees is one row at most or starts with a name. */
  ghost predicate TellsAlike(c: seq<SpaceNode>) {
    && (forall i | 0 <= i < Hidden(c) :: c[i].name == "")
    && (|c| - Hidden(c) <= 1 || c[Hidden(c)].name != "")
  }

  lemma {:induction false} NamelessPath(c: seq<SpaceNode>)
    ensures PickerPath(c) == "" <==> forall i | 0 <= i < |c| :: c[i].name == ""
  {
    if c != [] {
      NamelessPath(c[..|c| - 1]);
    }
  }

  /** Below a nameless part of a chain the picker starts afresh; below a named one it goes on. */
  lemma {:induction false} PickerPathSplits(a: seq<SpaceNode>, b: seq<SpaceNode>)
    ensures PickerPath(a) == "" ==> PickerPath(a + b) == PickerPath(b)
    ensures PickerPath(a) != "" ==> PickerPath(a + b) == PickerPath(a) + (if b == [] then "" else SEP + Joined(b))
  {
    if b == [] {
      assert a + b == a;
    } else {
      var front, last := b[..|b| - 1], b[|b| - 1];
      assert (a + b)[..|a + b| - 1] == a + front;
      PickerPathSplits(a, front);
      if PickerPath(a) != "" && front != [] {
        assert PickerPath(a) + (SEP + Joined(front)) + SEP + last.name == PickerPath(a) + (SEP + Joined(b));
      }
    }
  }

  lemma {:induction false} TextsAgreeExactly(c: seq<SpaceNode>)
    requires c != []
    ensures PickerPath(c) == Joined(c[Hidden(c)..]) <==> TellsAlike(c)
  {
    var h := Hidden(c);
    var a, b := c[..h], c[h..];
    assert a + b == c;
    PickerPathSplits(a, b);
    NamelessPath(a);
    assert forall i | 0 <= i < h :: a[i] == c[i];
    if b != [] {
      PathsAgreeExactly(b);
    }
  }

  /**
   For every option of the picker, its path is the label of its row if and only if the rows above the last
   empty id are nameless and what is left is one row at most or starts with a name: where every row has an id
   and a name, always.
   */
  lemma {:induction false} PickerAgreesWithLabel(nodes: seq<SpaceNode>, collate: Collation, o: PickerOption,
        text: string)
    requires o in Options(nodes, collate) && IsPathLabel(nodes, Some(o.id), text)
    ensures exists n :: n in Rows(nodes) && n.id == o.id && PathTo(ById(nodes), n, MAX_TREE_DEPTH).Some? &&
              var c := PathTo(ById(nodes), n, MAX_TREE_DEPTH).value;
              c != [] && o == OptionOf(c) && (o.path == text <==> TellsAlike(c))
  {
    var m := ById(nodes);
    TreeHoldsNothingElse(nodes, collate);
    ByIdKeyed(nodes);
    assert IsRowsOption(m, o);
    var n :| n in Values(m) && PathTo(m, n, MAX_TREE_DEPTH).Some? && PathTo(m, n, MAX_TREE_DEPTH).value != []
             && o == OptionOf(PathTo(m, n, MAX_TREE_DEPTH).value);
    PathIsChain(m, n);
    LabelOfRow(nodes, n, text);
  }

  lemma {:induction false} LabelOfRow(nodes: seq<SpaceNode>, n: SpaceNode, text: string)
    requires n in Rows(nodes) && PathTo(ById(nodes), n, MAX_TREE_DEPTH).Some?
      && PathTo(ById(nodes), n, MAX_TREE_DEPTH).value != []
    requires IsPathLabel(nodes, Some(n.id), text)
    ensures var c := PathTo(ById(nodes), n, MAX_TREE_DEPTH).value; PickerPath(c) == text <==> TellsAlike(c)
  {
    var c := PathTo(ById(nodes), n, MAX_TREE_DEPTH).value;
    var path :| IsNodePath(nodes, Some(n.id), path) && text == Joined(path);
    NodePathIsTheSeenChain(nodes, n, path);
    TextsAgreeExactly(c);
  }

  // ---------------------------------------------------------------- everything beneath

  ghost predicate Edge(nodes: seq<SpaceNode>, above: string, below: string) {
    above != "" && exists n :: n in nodes && n.parent == Some(above) && n.id == below
  }

  /** A chain of ids from `root` to `id`, each the parent of the next. */
  ghost predicate LeadsTo(nodes: seq<SpaceNode>, root: string, id: string, route: seq<string>) {
    && route != [] && route[0] == root && route[|route| - 1] == id
    && forall i | 0 < i < |route| :: Edge(nodes, route[i - 1], route[i])
  }

  ghost predicate Reachable(nodes: seq<SpaceNode>, root: string, id: string) {
    exists route :: LeadsTo(nodes, root, id, route)
  }

  ghost predicate Closed(nodes: seq<SpaceNode>, ids: set<string>) {
    forall n | n in nodes && n.parent.Some? && n.parent.value != "" && n.parent.value in ids :: n.id in ids
  }

  lemma {:induction false} ClosedHoldsReachable(nodes: seq<SpaceNode>, ids: set<string>, root: string, id: string,
        route: seq<string>)
    requires Closed(nodes, ids) && root in ids && LeadsTo(nodes, root, id, route)
    ensures id in ids
    decreases |route|
  {
    var k := |route| - 1;
    if k > 0 {
      ClosedHoldsReachable(nodes, ids, root, route[k - 1], route[..k]);
      assert Edge(nodes, route[k - 1], route[k]);
    }
  }

  lemma {:induction false} OneStepOn(nodes: seq<SpaceNode>, root: string, n: SpaceNode)
    requires n in nodes && n.parent.Some? && n.parent.value != "" && Reachable(nodes, root, n.parent.value)
    ensures Reachable(nodes, root, n.id)
  {
    var route :| LeadsTo(nodes, root, n.parent.value, route);
    var on := route + [n.id];
    assert Edge(nodes, n.parent.value, n.id);
    forall i | 0 < i < |on| ensures Edge(nodes, on[i - 1], on[i]) {
      assert i < |route| ==> Edge(nodes, route[i - 1], route[i]);
    }
    assert LeadsTo(nodes, root, n.id, on);
  }

  ghost function AllIds(nodes: seq<SpaceNode>): set<string> { set n | n in nodes :: n.id }

  lemma {:induction false} AllIdsSize(nodes: seq<SpaceNode>)
    ensures |AllIds(nodes)| <= |nodes|
  {
    if nodes != [] {
      var init, last := nodes[..|nodes| - 1], nodes[|nodes| - 1];
      AllIdsSize(init);
      assert nodes == init + [last];
      assert AllIds(nodes) == AllIds(init) + {last.id};
    }
  }

  /** A set this large holds every id there is. */
  lemma {:induction false} FullIsClosed(nodes: seq<SpaceNode>, root: string, ids: set<string>)
    requires root in ids && ids <= {root} + AllIds(nodes) && |ids| >= 1 + |nodes|
    ensures Closed(nodes, ids)
  {
    AllIdsSize(nodes);
    var all := {root} + AllIds(nodes);
    assert |all| <= 1 + |nodes|;
    SubsetOfSameSize(ids, all);
  }

  lemma {:induction false} SubsetOfSameSize<T>(a: set<T>, b: set<T>)
    requires a <= b && |a| >= |b|
    ensures a == b
  {
    assert |b - a| == |b| - |a|;
  }

  /** One pass over the rows: whatever is new hangs from something already held. */
  method OnePass(nodes: seq<SpaceNode>, root: string, before: set<string>) returns (ids: set<string>, grew: bool)
    requires root in before && before <= {root} + AllIds(nodes)
      && forall id | id in before :: Reachable(nodes, root, id)
    ensures before <= ids <= {root} + AllIds(nodes)
    ensures forall id | id in ids :: Reachable(nodes, root, id)
    ensures if grew then |before| < |ids| else ids == before && Closed(nodes, ids)
  {
    ids, grew := before, false;
    for i := 0 to |nodes|
      invariant before <= ids <= {root} + AllIds(nodes)
      invariant forall id | id in ids :: Reachable(nodes, root, id)
      invariant grew ==> |before| < |ids|
      invariant !grew ==> ids == before && Closed(nodes[..i], ids)
    {
      var n := nodes[i];
      assert nodes[..i + 1] == nodes[..i] + [n];
      if n.parent.Some? && n.parent.value != "" && n.parent.value in ids && n.id !in ids {
        OneStepOn(nodes, root, n);
        ids := ids + {n.id};
        grew := true;
      }
    }
    assert nodes[..|nodes|] == nodes;
  }

  /** The ids reachable downward from `root`, cycles or not, known root or not; `|nodes|` passes always suffice. */
  method SubtreeIds(nodes: seq<SpaceNode>, root: string) returns (ids: set<string>)
    ensures forall id :: id in ids <==> Reachable(nodes, root, id)
  {
    ids := {root};
    assert LeadsTo(nodes, root, root, [root]);
    var pass := 0;
    var grew := true;
    while pass < |nodes| && grew
      invariant 0 <= pass <= |nodes|
      invariant root in ids && ids <= {root} + AllIds(nodes)
      invariant forall id | id in ids :: Reachable(nodes, root, id)
      invariant if grew then |ids| >= 1 + pass else Closed(nodes, ids)
      decreases |nodes| - pass
    {
      ids, grew := OnePass(nodes, root, ids);
      pass := pass + 1;
    }
    if grew { FullIsClosed(nodes, root, ids); }
    forall id | Reachable(nodes, root, id) ensures id in ids {
      var route :| LeadsTo(nodes, root, id, route);
      ClosedHoldsReachable(nodes, ids, root, id, route);
    }
  }
}

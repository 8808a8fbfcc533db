/** The thread a person saw, out of the graph an export stores: the graph is checked to be one tree,
    then the path from its root to the displayed node is read off. */
module Threads {
  import opened Json
  import opened Wrappers

  /** Why a conversation record cannot be read. */
  datatype Rule =
    | NoMapping | NotANode | ParentMissing | ParentDoesNotList | ChildrenNotIds | ChildListedTwice
    | ChildMissing | ChildDoesNotName | NotOneRoot | CycleOrUnreachable
    | NotAnObject | NoIdentifier | NotAMessage | Unreadable | BadTime | NoStart | BadIdentifier

  type Mapping = map<string, Json>

  /** What a conversation's thread is. */
  datatype Thread = Thread(nodeIds: seq<string>, fallbackBranch: bool, abandoned: int)

  // ---------------------------------------------------------------------------------------------
  // One node's links
  // ---------------------------------------------------------------------------------------------

  function Parent(node: Json): Json {
    node.Get("parent")
  }

  function Texts(items: seq<Json>): Option<seq<string>> {
    if items == [] then Some([])
    else
      match (items[0], Texts(items[1..]))
      case (Text(t), Some(rest)) => Some([t] + rest)
      case _ => None
  }

  predicate Distinct(ids: seq<string>) {
    forall i, j | 0 <= i < j < |ids| :: ids[i] != ids[j]
  }

  function Children(node: Json): (r: Result<seq<string>, Rule>)
    requires node.Object?
    ensures r.Success? ==> Distinct(r.value)
  {
    if "children" !in node.fields then Success([])
    else
      match node.fields["children"]
      case Array(items) =>
        (match Texts(items)
         case None => Failure(ChildrenNotIds)
         case Some(ids) => if Distinct(ids) then Success(ids) else Failure(ChildListedTwice))
      case _ => Failure(ChildrenNotIds)
  }

  predicate IsNode(m: Mapping, id: string) {
    id in m && m[id].Object? && Children(m[id]).Success?
  }

  function Kids(m: Mapping, id: string): seq<string>
    requires IsNode(m, id)
  {
    Children(m[id]).value
  }

  // ---------------------------------------------------------------------------------------------
  // Trees
  // ---------------------------------------------------------------------------------------------

  predicate IsRoot(m: Mapping, id: string) {
    IsNode(m, id) && Parent(m[id]).Null?
  }

  /** `child` is listed by `parent`, which it names. */
  predicate Linked(m: Mapping, parent: string, child: string) {
    IsNode(m, parent) && IsNode(m, child) && child in Kids(m, parent) && Parent(m[child]) == Text(parent)
  }

  /** Every node lists its children once, names its parent, and agrees with both of them. */
  ghost predicate LinksAgree(m: Mapping) {
    && (forall id | id in m :: IsNode(m, id))
    && (forall id {:trigger Parent(m[id])} | id in m :: Parent(m[id]).Null? || (Parent(m[id]).Text? && Linked(m, Parent(m[id]).text, id)))
    && (forall id, child | IsNode(m, id) && child in Kids(m, id) :: Linked(m, id, child))
  }

  /** A way down from the root to `id`, one child at a time. */
  ghost predicate PathTo(m: Mapping, root: string, path: seq<string>, id: string) {
    && path != [] && path[0] == root && path[|path| - 1] == id
    && (forall i | 0 <= i < |path| :: path[i] in m)
    && forall i | 0 < i < |path| :: Linked(m, path[i - 1], path[i])
  }

  ghost predicate Reachable(m: Mapping, root: string, id: string) {
    exists path :: PathTo(m, root, path, id)
  }

  /** One rooted tree whose parent and child links agree. */
  ghost predicate IsTree(m: Mapping, root: string) {
    && LinksAgree(m) && root in m
    && (forall id {:trigger Parent(m[id])} | id in m :: Parent(m[id]).Null? <==> id == root)
    && forall id {:trigger Reachable(m, root, id)} | id in m :: Reachable(m, root, id)
  }

  /** There is only one way down to a node. */
  lemma {:induction false} PathIsUnique(m: Mapping, root: string, p: seq<string>, q: seq<string>, id: string)
    requires IsRoot(m, root) && PathTo(m, root, p, id) && PathTo(m, root, q, id)
    ensures p == q
    decreases |p|
  {
    if |p| == 1 {
      assert |q| > 1 ==> Linked(m, q[|q| - 2], q[|q| - 1]);
    } else {
      var n := |p| - 1;
      assert Linked(m, p[n - 1], p[n]);
      assert |q| > 1;
      assert Linked(m, q[|q| - 2], q[|q| - 1]);
      PathIsUnique(m, root, p[..n], q[..|q| - 1], p[n - 1]);
      assert p == p[..n] + [id] && q == q[..|q| - 1] + [id];
    }
  }

  /** And it visits no node twice. */
  lemma {:induction false} PathIsSimple(m: Mapping, root: string, p: seq<string>, id: string)
    requires IsRoot(m, root) && PathTo(m, root, p, id)
    ensures Distinct(p) && |p| <= |m|
  {
    forall i, j | 0 <= i < j < |p|
      ensures p[i] != p[j]
    {
      if p[i] == p[j] {
        PathIsUnique(m, root, p[..i + 1], p[..j + 1], p[i]);
      }
    }
    DistinctFits(p, m.Keys);
  }

  lemma {:induction false} DistinctFits(ids: seq<string>, keys: set<string>)
    requires Distinct(ids) && forall i | 0 <= i < |ids| :: ids[i] in keys
    ensures |ids| <= |keys|
    decreases |ids|
  {
    if ids != [] {
      DistinctFits(ids[1..], keys - {ids[0]});
    }
  }

  // ---------------------------------------------------------------------------------------------
  // Validation
  // ---------------------------------------------------------------------------------------------

  /** What the checks on one node establish. */
  ghost predicate NodeAgrees(m: Mapping, id: string) {
    && IsNode(m, id)
    && (Parent(m[id]).Null? || (Parent(m[id]).Text? && Linked(m, Parent(m[id]).text, id)))
    && forall child | child in Kids(m, id) :: child in m && m[child].Object? && Parent(m[child]) == Text(id)
  }

  lemma {:induction false} NodesAgree(m: Mapping)
    ensures LinksAgree(m) <==> forall id | id in m :: NodeAgrees(m, id)
  {
    if forall id | id in m :: NodeAgrees(m, id) {
      forall id, child | IsNode(m, id) && child in Kids(m, id)
        ensures Linked(m, id, child)
      {
        assert NodeAgrees(m, id) && NodeAgrees(m, child);
      }
    }
  }

  /** One node checked against its parent and its children; whether it is a root. */
  method CheckNode(m: Mapping, id: string) returns (root: Result<bool, Rule>)
    requires id in m
    ensures root.Success? ==> NodeAgrees(m, id) && (root.value <==> Parent(m[id]).Null?)
    ensures root.Failure? ==> !NodeAgrees(m, id)
  {
    var node := m[id];
    if !node.Object? {
      return Failure(NotANode);
    }
    var isRoot := false;
    match Parent(node) {
      case Null =>
        isRoot := true;
      case Text(parent) =>
        if parent !in m {
          return Failure(ParentMissing);
        }
        if !m[parent].Object? {
          return Failure(ParentDoesNotList);
        }
        var siblings :- Children(m[parent]);
        if id !in siblings {
          return Failure(ParentDoesNotList);
        }
      case _ =>
        return Failure(ParentMissing);
    }
    var kids :- Children(node);
    for k := 0 to |kids|
      invariant forall i | 0 <= i < k :: kids[i] in m && m[kids[i]].Object? && Parent(m[kids[i]]) == Text(id)
    {
      if kids[k] !in m {
        return Failure(ChildMissing);
      }
      if !m[kids[k]].Object? || Parent(m[kids[k]]) != Text(id) {
        return Failure(ChildDoesNotName);
      }
    }
    return Success(isRoot);
  }

  lemma {:induction false} SubsetSize<T>(a: set<T>, b: set<T>)
    requires a <= b
    ensures |a| <= |b| && (|a| == |b| ==> a == b)
  {
    if a != b {
      var x :| x in b && x !in a;
      SubsetSize(a, b - {x});
    }
  }

  /** The node's parent has been visited. */
  ghost predicate ComesFrom(m: Mapping, id: string, visited: set<string>) {
    id in m && Parent(m[id]).Text? && Parent(m[id]).text in visited
  }

  /** The state of the walk: what has been visited, and what waits. */
  ghost predicate Walking(m: Mapping, root: string, visited: set<string>, waiting: set<string>) {
    && visited <= m.Keys && waiting <= m.Keys && visited !! waiting && root in visited + waiting
    && (forall id {:trigger ComesFrom(m, id, visited)} | id in visited + waiting :: id == root || ComesFrom(m, id, visited))
    && (forall id {:trigger Reachable(m, root, id)} | id in visited + waiting :: Reachable(m, root, id))
    && (forall id, child | id in visited && Linked(m, id, child) :: child in visited + waiting)
  }

  function Members(ids: seq<string>): set<string> {
    set id | id in ids
  }

  /** The children of a waiting node have not been met yet. */
  lemma {:induction false} KidsAreNew(m: Mapping, root: string, visited: set<string>, waiting: set<string>, id: string)
    requires LinksAgree(m) && IsRoot(m, root) && Walking(m, root, visited, waiting) && id in waiting
    ensures IsNode(m, id) && Members(Kids(m, id)) !! visited + waiting
  {
    forall kid | kid in Kids(m, id)
      ensures kid !in visited + waiting
    {
      assert Linked(m, id, kid);
      assert kid in visited + waiting ==> kid == root || ComesFrom(m, kid, visited);
    }
  }

  lemma {:induction false} KidsAreReached(m: Mapping, root: string, id: string)
    requires LinksAgree(m) && Reachable(m, root, id) && IsNode(m, id)
    ensures forall kid | kid in Kids(m, id) :: Linked(m, id, kid) && Reachable(m, root, kid)
  {
    forall kid | kid in Kids(m, id)
      ensures Linked(m, id, kid) && Reachable(m, root, kid)
    {
      assert Linked(m, id, kid);
      var path :| PathTo(m, root, path, id);
      PathExtends(m, root, path, id, kid);
    }
  }

  lemma {:induction false} PathExtends(m: Mapping, root: string, path: seq<string>, id: string, kid: string)
    requires PathTo(m, root, path, id) && Linked(m, id, kid)
    ensures PathTo(m, root, path + [kid], kid)
  {
  }

  /** Taking a node off and putting its children on. */
  lemma {:induction false} WalkStep(m: Mapping, root: string, visited: set<string>, waiting: set<string>, id: string)
    requires LinksAgree(m) && IsRoot(m, root) && Walking(m, root, visited, waiting) && id in waiting
    ensures IsNode(m, id) && Walking(m, root, visited + {id}, waiting - {id} + Members(Kids(m, id)))
  {
    KidsAreNew(m, root, visited, waiting, id);
    StepReaches(m, root, visited, waiting, id);
    StepComesFrom(m, root, visited, waiting, id);
    StepCloses(m, root, visited, waiting, id);
    StepIsSound(visited, waiting, id, Members(Kids(m, id)), m.Keys);
  }

  lemma {:induction false} StepIsSound(visited: set<string>, waiting: set<string>, id: string, kids: set<string>, keys: set<string>)
    requires id in waiting && visited !! waiting && kids !! visited + waiting && visited + waiting + kids <= keys
    ensures visited + {id} !! waiting - {id} + kids
    ensures visited + {id} <= keys && waiting - {id} + kids <= keys
    ensures visited + {id} + (waiting - {id} + kids) == visited + waiting + kids
  {
  }

  lemma {:induction false} StepReaches(m: Mapping, root: string, visited: set<string>, waiting: set<string>, id: string)
    requires LinksAgree(m) && id in waiting && IsNode(m, id)
    requires forall other {:trigger Reachable(m, root, other)} | other in visited + waiting :: Reachable(m, root, other)
    ensures Members(Kids(m, id)) <= m.Keys
    ensures forall other {:trigger Reachable(m, root, other)} | other in visited + {id} + (waiting - {id} + Members(Kids(m, id))) ::
              Reachable(m, root, other)
  {
    assert Reachable(m, root, id);
    KidsAreReached(m, root, id);
    forall other | other in visited + {id} + (waiting - {id} + Members(Kids(m, id)))
      ensures Reachable(m, root, other)
    {
      if other !in Kids(m, id) {
        assert other in visited + waiting;
      }
    }
  }

  lemma {:induction false} StepComesFrom(m: Mapping, root: string, visited: set<string>, waiting: set<string>, id: string)
    requires LinksAgree(m) && id in waiting && IsNode(m, id)
    requires forall other | other in visited + waiting :: other == root || ComesFrom(m, other, visited)
    ensures forall other | other in visited + {id} + (waiting - {id} + Members(Kids(m, id))) ::
              other == root || ComesFrom(m, other, visited + {id})
  {
    forall other | other in visited + {id} + (waiting - {id} + Members(Kids(m, id)))
      ensures other == root || ComesFrom(m, other, visited + {id})
    {
      if other in Kids(m, id) {
        assert Linked(m, id, other);
      } else {
        assert other in visited + waiting;
      }
    }
  }

  lemma {:induction false} StepCloses(m: Mapping, root: string, visited: set<string>, waiting: set<string>, id: string)
    requires id in waiting && IsNode(m, id)
    requires forall other, child | other in visited && Linked(m, other, child) :: child in visited + waiting
    ensures forall other, child | other in visited + {id} && Linked(m, other, child) ::
              child in visited + {id} + (waiting - {id} + Members(Kids(m, id)))
  {
    forall other, child | other in visited + {id} && Linked(m, other, child)
      ensures child in visited + {id} + (waiting - {id} + Members(Kids(m, id)))
    {
      if other in visited {
        assert child in visited + waiting;
      }
    }
  }

  /** One turn of the walk: the top of the stack is visited, and makes way for its children. */
  lemma {:induction false} WalkTurn(m: Mapping, root: string, visited: set<string>, waiting: set<string>,
                                    rest: seq<string>, id: string)
    requires LinksAgree(m) && IsRoot(m, root) && Walking(m, root, visited, waiting)
    requires Distinct(rest + [id]) && waiting == Members(rest + [id])
    ensures IsNode(m, id) && id !in visited && |visited| < |m| && Distinct(rest + Kids(m, id))
    ensures Walking(m, root, visited + {id}, Members(rest + Kids(m, id)))
  {
    assert (rest + [id])[|rest|] == id;
    assert id in waiting;
    KidsAreNew(m, root, visited, waiting, id);
    WalkStep(m, root, visited, waiting, id);
    StackStep(rest, id, Kids(m, id));
    SubsetSize(visited + {id}, m.Keys);
  }

  /** A stack without repetitions, its top replaced by nodes it did not hold. */
  lemma {:induction false} StackStep(rest: seq<string>, id: string, kids: seq<string>)
    requires Distinct(rest + [id]) && Distinct(kids) && Members(kids) !! Members(rest + [id])
    ensures Distinct(rest + kids) && id in Members(rest + [id])
    ensures Members(rest + kids) == Members(rest + [id]) - {id} + Members(kids)
  {
    var before, after := rest + [id], rest + kids;
    assert before[|rest|] == id;
    assert forall i | 0 <= i < |rest| :: before[i] == rest[i] && rest[i] in Members(before);
    forall i, j | 0 <= i < j < |after|
      ensures after[i] != after[j]
    {
      if i < |rest| <= j {
        assert kids[j - |rest|] in Members(kids);
      }
    }
    forall x
      ensures x in Members(after) <==> x in Members(before) - {id} + Members(kids)
    {
      assert x in after <==> x in rest || x in kids;
      assert x in before <==> x in rest || x == id;
      if x in rest {
        var i :| 0 <= i < |rest| && rest[i] == x;
        assert before[i] != before[|rest|];
      }
    }
  }

  lemma {:induction false} WalkEnds(m: Mapping, root: string, visited: set<string>, path: seq<string>, id: string)
    requires Walking(m, root, visited, {}) && PathTo(m, root, path, id)
    ensures id in visited
    decreases |path|
  {
    if |path| > 1 {
      WalkEnds(m, root, visited, path[..|path| - 1], path[|path| - 2]);
      assert Linked(m, path[|path| - 2], path[|path| - 1]);
    }
  }

  lemma {:induction false} WalkStarts(m: Mapping, root: string)
    requires root in m
    ensures Walking(m, root, {}, Members([root]))
  {
    assert PathTo(m, root, [root], root);
  }

  /** Once nothing waits, what was visited is what the root reaches. */
  lemma {:induction false} WalkDone(m: Mapping, root: string, visited: set<string>)
    requires Walking(m, root, visited, {})
    ensures forall id :: id in visited <==> Reachable(m, root, id)
  {
    forall id | Reachable(m, root, id)
      ensures id in visited
    {
      var path :| PathTo(m, root, path, id);
      WalkEnds(m, root, visited, path, id);
    }
  }

  /** Pop one node, and push its children. */
  method Visit(m: Mapping, root: string, stack: seq<string>, ghost seen: set<string>)
    returns (pending: seq<string>, ghost visited: set<string>)
    requires LinksAgree(m) && IsRoot(m, root) && stack != []
    requires Walking(m, root, seen, Members(stack)) && Distinct(stack)
    ensures Walking(m, root, visited, Members(pending)) && Distinct(pending)
    ensures |visited| == |seen| + 1 && |visited| <= |m|
  {
    var id := stack[|stack| - 1];
    var rest := stack[..|stack| - 1];
    assert stack == rest + [id];
    WalkTurn(m, root, seen, Members(stack), rest, id);
    visited := seen + {id};
    pending := rest + Kids(m, id);
  }

  ghost function ReachableFrom(m: Mapping, root: string): set<string> {
    set id | id in m && Reachable(m, root, id)
  }

  /** How many nodes the root reaches. No node is visited twice, so the guard against counting more
      nodes than there are never fires. */
  method CountReached(m: Mapping, root: string) returns (reached: nat, ghost visited: set<string>, ghost overflowed: bool)
    requires LinksAgree(m) && IsRoot(m, root)
    ensures forall id :: id in visited <==> Reachable(m, root, id)
    ensures reached == |visited| && visited <= m.Keys && !overflowed
    ensures reached == |ReachableFrom(m, root)|
  {
    reached, visited, overflowed := 0, {}, false;
    var pending := [root];
    WalkStarts(m, root);
    while pending != []
      invariant Walking(m, root, visited, Members(pending)) && Distinct(pending)
      invariant reached == |visited| && !overflowed
      decreases |m| - |visited|
    {
      pending, visited := Visit(m, root, pending, visited);
      reached := reached + 1;
      if reached > |m| {
        overflowed := true;
        break;
      }
    }
    assert Members(pending) == {};
    WalkDone(m, root, visited);
    assert visited == ReachableFrom(m, root);
  }

  /** Every node checked, in whatever order the mapping lists them, and the roots collected. */
  method CheckLinks(m: Mapping) returns (checked: Result<seq<string>, Rule>)
    ensures checked.Success? <==> LinksAgree(m)
    ensures checked.Success? ==> Distinct(checked.value)
    ensures checked.Success? ==> forall id :: id in checked.value <==> id in m && Parent(m[id]).Null?
  {
    var roots: seq<string> := [];
    var todo := m.Keys;
    NodesAgree(m);
    while todo != {}
      invariant todo <= m.Keys && Distinct(roots)
      invariant forall id | id in m && id !in todo :: NodeAgrees(m, id)
      invariant forall id :: id in roots <==> id in m && id !in todo && Parent(m[id]).Null?
      decreases todo
    {
      var id :| id in todo;
      var isRoot :- CheckNode(m, id);
      if isRoot {
        roots := roots + [id];
      }
      todo := todo - {id};
    }
    return Success(roots);
  }

  /** Accepts a mapping exactly when it is one tree, and answers its root. */
  method Validate(mapping: Json) returns (valid: Result<string, Rule>)
    ensures valid.Success? ==> mapping.Object? && IsTree(mapping.fields, valid.value)
    ensures valid.Failure? ==> !(mapping.Object? && exists r :: IsTree(mapping.fields, r))
  {
    if !mapping.Object? || mapping.fields == map[] {
      return Failure(NoMapping);
    }
    var m := mapping.fields;
    var roots :- CheckLinks(m);
    if |roots| != 1 {
      OneRoot(m, roots);
      return Failure(NotOneRoot);
    }
    var root := roots[0];
    assert root in roots;
    var reached;
    ghost var visited, overflowed;
    reached, visited, overflowed := CountReached(m, root);
    SubsetSize(visited, m.Keys);
    OnlyRoot(m, root, visited, roots);
    if reached != |m| {
      return Failure(CycleOrUnreachable);
    }
    return Success(root);
  }

  lemma {:induction false} OneRoot(m: Mapping, roots: seq<string>)
    requires Distinct(roots) && |roots| != 1
    requires forall id :: id in roots <==> id in m && Parent(m[id]).Null?
    ensures forall r :: !IsTree(m, r)
  {
    if |roots| > 1 {
      assert roots[0] in roots && roots[1] in roots;
    }
    forall r
      ensures !IsTree(m, r)
    {
    }
  }

  /** With agreeing links and one root, the graph is a tree exactly when the root reaches it all. */
  lemma {:induction false} OnlyRoot(m: Mapping, root: string, visited: set<string>, roots: seq<string>)
    requires LinksAgree(m) && visited <= m.Keys
    requires roots == [root] && forall id :: id in roots <==> id in m && Parent(m[id]).Null?
    requires forall id :: id in visited <==> Reachable(m, root, id)
    ensures if visited == m.Keys then IsTree(m, root) else forall r :: !IsTree(m, r)
  {
    assert root in roots;
    if visited != m.Keys {
      var lost :| lost in m && lost !in visited;
      forall r
        ensures !IsTree(m, r)
      {
        assert IsTree(m, r) ==> r == root;
      }
    }
  }

  // ---------------------------------------------------------------------------------------------
  // Reconstruction
  // ---------------------------------------------------------------------------------------------

  /** The path goes down by the last-listed child, to a node without children. */
  ghost predicate FollowsLastChildren(m: Mapping, path: seq<string>) {
    && (forall i | 0 <= i < |path| :: IsNode(m, path[i]))
    && (forall i | 0 < i < |path| :: IsLastChild(m, path[i - 1], path[i]))
  }

  predicate IsLastChild(m: Mapping, id: string, child: string) {
    IsNode(m, id) && Kids(m, id) != [] && child == Kids(m, id)[|Kids(m, id)| - 1]
  }

  lemma {:induction false} FollowsExtends(m: Mapping, path: seq<string>, next: string)
    requires path != [] && FollowsLastChildren(m, path) && IsLastChild(m, path[|path| - 1], next) && IsNode(m, next)
    ensures FollowsLastChildren(m, path + [next])
  {
    var longer := path + [next];
    forall i | 0 < i < |longer|
      ensures IsLastChild(m, longer[i - 1], longer[i])
    {
      assert i < |path| ==> IsLastChild(m, path[i - 1], path[i]);
    }
  }

  lemma {:induction false} LastChildStep(m: Mapping, root: string, leaf: string, path: seq<string>)
    requires IsTree(m, root) && PathTo(m, root, path, leaf) && FollowsLastChildren(m, path) && Kids(m, leaf) != []
    ensures var next := Kids(m, leaf)[|Kids(m, leaf)| - 1];
            PathTo(m, root, path + [next], next) && FollowsLastChildren(m, path + [next]) && |path| < |m|
  {
    var next := Kids(m, leaf)[|Kids(m, leaf)| - 1];
    assert next in Kids(m, leaf) && Linked(m, leaf, next);
    PathExtends(m, root, path, leaf, next);
    FollowsExtends(m, path, next);
    PathIsSimple(m, root, path + [next], next);
  }

  lemma {:induction false} RootIsAWay(m: Mapping, root: string)
    requires IsTree(m, root)
    ensures PathTo(m, root, [root], root) && FollowsLastChildren(m, [root])
  {
  }

  method LastChildLeaf(m: Mapping, root: string) returns (leaf: string, ghost path: seq<string>)
    requires IsTree(m, root)
    ensures PathTo(m, root, path, leaf) && FollowsLastChildren(m, path) && Kids(m, leaf) == []
  {
    leaf, path := root, [root];
    RootIsAWay(m, root);
    while Kids(m, leaf) != []
      invariant PathTo(m, root, path, leaf) && FollowsLastChildren(m, path)
      decreases |m| - |path|
    {
      var kids := Kids(m, leaf);
      var next := kids[|kids| - 1];
      LastChildStep(m, root, leaf, path);
      path := path + [next];
      leaf := next;
    }
  }

  /** The node the thread ends at: the one marked, or the last-child leaf when none validly is. */
  ghost predicate ChosenLeaf(m: Mapping, root: string, current: Json, path: seq<string>, fallback: bool) {
    && path != []
    && fallback == !(current.Text? && current.text in m)
    && if fallback then FollowsLastChildren(m, path) && Kids(m, path[|path| - 1]) == []
       else path[|path| - 1] == current.text
  }

  /** What a thread is: the way down from the root of a tree to the chosen node. */
  ghost predicate IsThread(mapping: Json, current: Json, thread: Thread) {
    && mapping.Object?
    && var m := mapping.fields;
       exists root ::
         && IsTree(m, root) && thread.nodeIds != []
         && PathTo(m, root, thread.nodeIds, thread.nodeIds[|thread.nodeIds| - 1])
         && ChosenLeaf(m, root, current, thread.nodeIds, thread.fallbackBranch)
         && thread.abandoned == |m| - |thread.nodeIds|
  }

  method Reconstruct(mapping: Json, current: Json) returns (thread: Result<Thread, Rule>)
    ensures thread.Success? ==> IsThread(mapping, current, thread.value)
    ensures thread.Failure? ==> !(mapping.Object? && exists r :: IsTree(mapping.fields, r))
  {
    var root :- Validate(mapping);
    var m := mapping.fields;
    var fallback := !(current.Text? && current.text in m);
    var leaf: string;
    ghost var way;
    if fallback {
      leaf, way := LastChildLeaf(m, root);
    } else {
      leaf := current.text;
      assert Reachable(m, root, leaf);
      way :| PathTo(m, root, way, leaf);
    }
    var ids := Climb(m, root, leaf, way);
    return Success(Thread(ids, fallback, |m| - |ids|));
  }

  /** From a node up to the root, then turned round. */
  method Climb(m: Mapping, root: string, leaf: string, ghost way: seq<string>) returns (ids: seq<string>)
    requires IsTree(m, root) && PathTo(m, root, way, leaf)
    ensures ids == way
  {
    var path := [leaf];
    while Parent(m[path[|path| - 1]]) != Null
      invariant 0 < |path| <= |way| && forall i | 0 <= i < |path| :: path[i] == way[|way| - 1 - i]
      decreases |way| - |path|
    {
      ghost var k := |way| - |path|;
      assert k > 0 ==> Linked(m, way[k - 1], way[k]);
      path := path + [Parent(m[path[|path| - 1]]).text];
    }
    WayUp(m, root, way, path);
    ids := Reversed(path);
  }

  /** Climbing stops at the root and nowhere else. */
  lemma {:induction false} WayUp(m: Mapping, root: string, way: seq<string>, path: seq<string>)
    requires path != [] && way != [] && PathTo(m, root, way, way[|way| - 1])
    requires |path| <= |way| && forall i | 0 <= i < |path| :: path[i] == way[|way| - 1 - i]
    requires Parent(m[path[|path| - 1]]) == Null
    ensures Reversed(path) == way
  {
    var k := |way| - |path|;
    assert k > 0 ==> Linked(m, way[k - 1], way[k]);
  }

  function Reversed<T>(s: seq<T>): (r: seq<T>)
    ensures |r| == |s| && forall i | 0 <= i < |s| :: r[i] == s[|s| - 1 - i]
  {
    if s == [] then [] else Reversed(s[1..]) + [s[0]]
  }

  /** A mapping and a marked node have one thread, which visits no node twice; what it leaves out is
      counted, node for node. */
  lemma {:induction false} ThreadIsUnique(mapping: Json, current: Json, a: Thread, b: Thread)
    requires IsThread(mapping, current, a) && IsThread(mapping, current, b)
    ensures a == b
    ensures Distinct(a.nodeIds) && a.abandoned >= 0 && |a.nodeIds| + a.abandoned == |mapping.fields|
  {
    var m := mapping.fields;
    var root :| && IsTree(m, root) && PathTo(m, root, a.nodeIds, a.nodeIds[|a.nodeIds| - 1])
                && ChosenLeaf(m, root, current, a.nodeIds, a.fallbackBranch);
    var other :| && IsTree(m, other) && PathTo(m, other, b.nodeIds, b.nodeIds[|b.nodeIds| - 1])
                 && ChosenLeaf(m, other, current, b.nodeIds, b.fallbackBranch);
    assert Parent(m[root]).Null? && other == root;
    PathIsSimple(m, root, a.nodeIds, a.nodeIds[|a.nodeIds| - 1]);
    if a.fallbackBranch {
      LastChildrenUnique(m, root, a.nodeIds, b.nodeIds);
    } else {
      PathIsUnique(m, root, a.nodeIds, b.nodeIds, current.text);
    }
  }

  lemma {:induction false} FollowsRest(m: Mapping, path: seq<string>)
    requires FollowsLastChildren(m, path) && path != []
    ensures FollowsLastChildren(m, path[1..])
  {
    forall i | 0 < i < |path[1..]|
      ensures IsLastChild(m, path[1..][i - 1], path[1..][i])
    {
      assert IsLastChild(m, path[i + 1 - 1], path[i + 1]);
    }
  }

  lemma {:induction false} LastChildrenUnique(m: Mapping, root: string, a: seq<string>, b: seq<string>)
    requires a != [] && b != [] && a[0] == b[0]
    requires FollowsLastChildren(m, a) && Kids(m, a[|a| - 1]) == []
    requires FollowsLastChildren(m, b) && Kids(m, b[|b| - 1]) == []
    ensures a == b
    decreases |a|
  {
    assert |a| > 1 ==> IsLastChild(m, a[0], a[1]);
    assert |b| > 1 ==> IsLastChild(m, b[0], b[1]);
    if |a| > 1 && |b| > 1 {
      FollowsRest(m, a);
      FollowsRest(m, b);
      LastChildrenUnique(m, root, a[1..], b[1..]);
      assert a == [a[0]] + a[1..] && b == [b[0]] + b[1..];
    }
  }
}

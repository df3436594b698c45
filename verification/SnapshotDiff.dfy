/** The keyed difference between two page snapshots. */
module SnapshotDiff {
  import opened Text

  datatype ElementRef = ElementRef(
    role: string, name: Option<string>, backendNodeId: int,
    value: Option<string>, focused: Option<bool>, disabled: Option<bool>,
    ref: string, depth: nat)

  /** What a snapshot can show differently about one element. */
  datatype View = View(value: Option<string>, focused: Option<bool>, disabled: Option<bool>)

  datatype Diff = Diff(added: seq<ElementRef>, changed: seq<ElementRef>, removed: seq<ElementRef>)

  function ViewOf(n: ElementRef): View {
    View(n.value, n.focused, n.disabled)
  }

  function NameText(n: ElementRef): string {
    if n.name.Some? then n.name.value else ""
  }

  /** `nodeKey` */
  function NodeKey(n: ElementRef): string {
    n.role + ":" + NameText(n) + ":" + IntText(n.backendNodeId)
  }

  function Named(role: string, name: string): ElementRef {
    ElementRef(role, Some(name), 1, None, None, None, "e0", 0)
  }

  /** Elements of a shorter and of a longer role share a key when the longer one goes on with a colon. */
  lemma LongerRoleShares(r: string, q: string)
    requires r + ":" <= q
    ensures var rest := q[|r| + 1..]; NodeKey(Named(r, rest + ":" + "x")) == NodeKey(Named(q, "x"))
  {
    assert q == r + ":" + q[|r| + 1..];
  }

  lemma SharedKeyRole(a: ElementRef, b: ElementRef)
    requires a.role != b.role && |a.role| <= |b.role| && NodeKey(a) == NodeKey(b)
    ensures a.role + ":" <= b.role
  {
    var key := NodeKey(a);
    assert key[..|a.role|] == a.role && key[|a.role|] == ':';
    assert key[..|b.role|] == b.role;
    if |a.role| == |b.role| {
      assert false;
    }
    assert b.role[..|a.role| + 1] == key[..|a.role| + 1] == a.role + ":";
  }

  /** Elements with two different roles can share a key if and only if one role is the other up to one of its colons. */
  lemma RolesShareKeyIff(r: string, q: string)
    requires r != q
    ensures (exists a: ElementRef, b: ElementRef :: a.role == r && b.role == q && NodeKey(a) == NodeKey(b))
            <==> r + ":" <= q || q + ":" <= r
  {
    if a: ElementRef, b: ElementRef :| a.role == r && b.role == q && NodeKey(a) == NodeKey(b) {
      if |r| <= |q| { SharedKeyRole(a, b); } else { SharedKeyRole(b, a); }
    }
    if r + ":" <= q {
      LongerRoleShares(r, q);
      assert Named(r, q[|r| + 1..] + ":" + "x").role == r && Named(q, "x").role == q;
    }
    if q + ":" <= r {
      LongerRoleShares(q, r);
      assert Named(q, r[|q| + 1..] + ":" + "x").role == q && Named(r, "x").role == r;
    }
  }

  /** Keys tell elements apart when the roles are equal or neither is the other up to a colon. */
  lemma NodeKeyExact(a: ElementRef, b: ElementRef)
    requires a.role == b.role || !(a.role + ":" <= b.role || b.role + ":" <= a.role)
    ensures NodeKey(a) == NodeKey(b) <==>
            a.role == b.role && NameText(a) == NameText(b) && a.backendNodeId == b.backendNodeId
  {
    if NodeKey(a) == NodeKey(b) {
      if a.role != b.role { RolesShareKeyIff(a.role, b.role); }
      SameRoleKey(a, b);
    }
  }

  lemma SameRoleKey(a: ElementRef, b: ElementRef)
    requires a.role == b.role && NodeKey(a) == NodeKey(b)
    ensures NameText(a) == NameText(b) && a.backendNodeId == b.backendNodeId
  {
    SameTail(a.role + ":", NameText(a), IntText(a.backendNodeId), NameText(b), IntText(b.backendNodeId));
    NoColon(a.backendNodeId);
    NoColon(b.backendNodeId);
    CutLast(NameText(a), IntText(a.backendNodeId), NameText(b), IntText(b.backendNodeId), ':');
    IntTextInjective(a.backendNodeId, b.backendNodeId);
  }

  lemma SameTail(head: string, x: string, m: string, y: string, n: string)
    requires head + x + ":" + m == head + y + ":" + n
    ensures x + [':'] + m == y + [':'] + n
  {
    assert head + x + ":" + m == head + (x + [':'] + m) && head + y + ":" + n == head + (y + [':'] + n);
    assert (head + (x + [':'] + m))[|head|..] == x + [':'] + m;
    assert (head + (y + [':'] + n))[|head|..] == y + [':'] + n;
  }

  lemma NoColon(n: int)
    ensures ':' !in IntText(n)
  {
  }

  lemma ColonInside(r: string, q: string)
    requires r + ":" <= q
    ensures ':' in q
  {
    assert q[|r|] == ':';
  }

  /** Two elements that the code confuses: their roles are `x` and `x:y`. */
  lemma NodeKeyCollision()
    ensures NodeKey(Named("x", "y:z")) == NodeKey(Named("x:y", "z"))
  {
    assert NodeKey(Named("x", "y:z")) == "x:y:z:" + IntText(1) == NodeKey(Named("x:y", "z"));
  }

  /** Keys tell elements apart, up to a missing and an empty name, when roles contain no colon. */
  lemma NodeKeyInjective(a: ElementRef, b: ElementRef)
    requires ':' !in a.role && ':' !in b.role
    ensures NodeKey(a) == NodeKey(b) <==>
            a.role == b.role && NameText(a) == NameText(b) && a.backendNodeId == b.backendNodeId
  {
    if a.role + ":" <= b.role { ColonInside(a.role, b.role); }
    if b.role + ":" <= a.role { ColonInside(b.role, a.role); }
    NodeKeyExact(a, b);
  }

  /** A JavaScript map from keys to elements: keys in the order of first insertion. */
  datatype Index = Index(keys: seq<string>, refs: map<string, ElementRef>)

  type Keying = ElementRef -> string

  function Put(key: Keying, ix: Index, n: ElementRef): Index {
    Index(if key(n) in ix.refs then ix.keys else ix.keys + [key(n)], ix.refs[key(n) := n])
  }

  function IndexOf(key: Keying, nodes: seq<ElementRef>): Index {
    if nodes == [] then Index([], map[]) else Put(key, IndexOf(key, nodes[..|nodes| - 1]), nodes[|nodes| - 1])
  }

  predicate Distinct(keys: seq<string>) {
    forall i, j | 0 <= i < j < |keys| :: keys[i] != keys[j]
  }

  ghost predicate IndexOk(key: Keying, ix: Index) {
    && Distinct(ix.keys)
    && (forall k :: k in ix.keys <==> k in ix.refs)
    && (forall k | k in ix.refs :: key(ix.refs[k]) == k)
  }

  lemma {:induction false} IndexOfOk(key: Keying, nodes: seq<ElementRef>)
    ensures IndexOk(key, IndexOf(key, nodes))
  {
    if nodes != [] {
      IndexOfOk(key, nodes[..|nodes| - 1]);
    }
  }

  /** The elements whose keys satisfy `choose`, in key order. */
  function Select(keys: seq<string>, refs: map<string, ElementRef>, choose: string -> bool): seq<ElementRef>
    requires forall k | k in keys :: k in refs
  {
    if keys == [] then []
    else
      var last := keys[|keys| - 1];
      Select(keys[..|keys| - 1], refs, choose) + (if choose(last) then [refs[last]] else [])
  }

  function IsNew(prev: Index): string -> bool {
    k => k !in prev.refs
  }

  function IsChanged(prev: Index, current: Index): string -> bool {
    k => k in prev.refs && k in current.refs && ViewOf(prev.refs[k]) != ViewOf(current.refs[k])
  }

  function DiffOf(prev: Index, current: Index): Diff
    requires (forall k | k in prev.keys :: k in prev.refs) && (forall k | k in current.keys :: k in current.refs)
  {
    Diff(Select(current.keys, current.refs, IsNew(prev)),
         Select(current.keys, current.refs, IsChanged(prev, current)),
         Select(prev.keys, prev.refs, IsNew(current)))
  }

  /** The difference of two snapshots under a way to form keys. */
  function Difference(key: Keying, prev: seq<ElementRef>, current: seq<ElementRef>): Diff {
    IndexOfOk(key, prev);
    IndexOfOk(key, current);
    DiffOf(IndexOf(key, prev), IndexOf(key, current))
  }

  method BuildIndex(key: Keying, nodes: seq<ElementRef>) returns (ix: Index)
    ensures ix == IndexOf(key, nodes) && IndexOk(key, ix)
  {
    ix := Index([], map[]);
    for i := 0 to |nodes|
      invariant ix == IndexOf(key, nodes[..i])
    {
      assert nodes[..i + 1][..i] == nodes[..i];
      ix := Put(key, ix, nodes[i]);
    }
    assert nodes[..|nodes|] == nodes;
    IndexOfOk(key, nodes);
  }

  /** The two loops of `computeDiff` over indexed snapshots. */
  method Compare(prevByKey: Index, currentByKey: Index) returns (diff: Diff)
    requires (forall k | k in prevByKey.keys :: k in prevByKey.refs)
    requires (forall k | k in currentByKey.keys :: k in currentByKey.refs)
    ensures diff == DiffOf(prevByKey, currentByKey)
  {
    var added, changed, removed := [], [], [];
    var keys, refs := currentByKey.keys, currentByKey.refs;
    for i := 0 to |keys|
      invariant added == Select(keys[..i], refs, IsNew(prevByKey))
      invariant changed == Select(keys[..i], refs, IsChanged(prevByKey, currentByKey))
    {
      var key := keys[i];
      assert keys[..i + 1][..i] == keys[..i];
      var node := refs[key];
      if key !in prevByKey.refs {
        added := added + [node];
        continue;
      }
      var prevNode := prevByKey.refs[key];
      if prevNode.value != node.value || prevNode.focused != node.focused || prevNode.disabled != node.disabled {
        changed := changed + [node];
      }
    }
    assert keys[..|keys|] == keys;
    for i := 0 to |prevByKey.keys|
      invariant removed == Select(prevByKey.keys[..i], prevByKey.refs, IsNew(currentByKey))
    {
      assert prevByKey.keys[..i + 1][..i] == prevByKey.keys[..i];
      if prevByKey.keys[i] !in currentByKey.refs {
        removed := removed + [prevByKey.refs[prevByKey.keys[i]]];
      }
    }
    assert prevByKey.keys[..|prevByKey.keys|] == prevByKey.keys;
    diff := Diff(added, changed, removed);
  }

  /** `computeDiff` */
  method ComputeDiff(prev: seq<ElementRef>, current: seq<ElementRef>) returns (diff: Diff)
    ensures diff == Difference(NodeKey, prev, current)
  {
    var prevByKey := BuildIndex(NodeKey, prev);
    var currentByKey := BuildIndex(NodeKey, current);
    diff := Compare(prevByKey, currentByKey);
  }

  // ---- A difference is a patch ----

  /** What a list of elements shows per key, later entries winning. */
  function Views(key: Keying, nodes: seq<ElementRef>): map<string, View> {
    if nodes == [] then map[]
    else Views(key, nodes[..|nodes| - 1])[key(nodes[|nodes| - 1]) := ViewOf(nodes[|nodes| - 1])]
  }

  /** Removes, then overrides. */
  function Apply(key: Keying, views: map<string, View>, d: Diff): map<string, View> {
    (views - Views(key, d.removed).Keys) + Views(key, d.added) + Views(key, d.changed)
  }

  /** The views of the chosen keys of an index. */
  ghost predicate Shows(views: map<string, View>, refs: map<string, ElementRef>, chosen: string -> bool) {
    && (forall k :: k in views <==> k in refs && chosen(k))
    && (forall k | k in views :: views[k] == ViewOf(refs[k]))
  }

  lemma {:induction false} ViewsOfIndex(key: Keying, nodes: seq<ElementRef>)
    ensures Shows(Views(key, nodes), IndexOf(key, nodes).refs, k => true)
  {
    if nodes != [] {
      ViewsOfIndex(key, nodes[..|nodes| - 1]);
    }
  }

  lemma {:induction false} ViewsOfSelect(key: Keying, keys: seq<string>, refs: map<string, ElementRef>,
                                         choose: string -> bool)
    requires forall k | k in keys :: k in refs && key(refs[k]) == k
    ensures var views := Views(key, Select(keys, refs, choose));
            && (forall k :: k in views <==> k in keys && choose(k))
            && (forall k | k in views :: views[k] == ViewOf(refs[k]))
  {
    if keys != [] {
      var front, last := keys[..|keys| - 1], keys[|keys| - 1];
      assert keys == front + [last];
      ViewsOfSelect(key, front, refs, choose);
      var some := Select(front, refs, choose);
      if choose(last) {
        assert (some + [refs[last]])[..|some|] == some;
      } else {
        assert some + [] == some;
      }
    }
  }

  lemma ChosenViews(key: Keying, ix: Index, choose: string -> bool)
    requires IndexOk(key, ix)
    ensures Shows(Views(key, Select(ix.keys, ix.refs, choose)), ix.refs, choose)
  {
    ViewsOfSelect(key, ix.keys, ix.refs, choose);
  }

  /** `removed`, `added` and `changed` are what the difference of two indexes shows. */
  ghost predicate PatchParts(prev: Index, current: Index, added: map<string, View>, changed: map<string, View>,
                             removed: map<string, View>) {
    && Shows(added, current.refs, IsNew(prev))
    && Shows(removed, prev.refs, IsNew(current))
    && Shows(changed, current.refs, IsChanged(prev, current))
  }

  lemma PatchAt(p: map<string, View>, c: map<string, View>, added: map<string, View>, changed: map<string, View>,
                removed: map<string, View>, prev: Index, current: Index, k: string)
    requires Shows(p, prev.refs, k => true) && Shows(c, current.refs, k => true)
    requires PatchParts(prev, current, added, changed, removed)
    ensures k in c <==> (k in p && k !in removed) || k in added || k in changed
    ensures k in c ==> c[k] == if k in changed then changed[k] else if k in added then added[k] else p[k]
  {
  }

  lemma PartsDisjoint(added: map<string, View>, changed: map<string, View>, removed: map<string, View>,
                      prev: Index, current: Index)
    requires PatchParts(prev, current, added, changed, removed)
    ensures added.Keys !! changed.Keys && added.Keys !! removed.Keys && changed.Keys !! removed.Keys
  {
  }

  lemma PatchViews(p: map<string, View>, c: map<string, View>, added: map<string, View>, changed: map<string, View>,
                   removed: map<string, View>, prev: Index, current: Index)
    requires Shows(p, prev.refs, k => true) && Shows(c, current.refs, k => true)
    requires PatchParts(prev, current, added, changed, removed)
    ensures (p - removed.Keys) + added + changed == c
  {
    forall k
      ensures k in c <==> (k in p && k !in removed) || k in added || k in changed
      ensures k in c ==> c[k] == if k in changed then changed[k] else if k in added then added[k] else p[k]
    {
      PatchAt(p, c, added, changed, removed, prev, current, k);
    }
    SamePatched(p, c, added, changed, removed.Keys);
  }

  lemma SamePatched(p: map<string, View>, c: map<string, View>, added: map<string, View>, changed: map<string, View>,
                    removed: set<string>)
    requires forall k :: k in c <==> (k in p && k !in removed) || k in added || k in changed
    requires forall k | k in c :: c[k] == if k in changed then changed[k] else if k in added then added[k] else p[k]
    ensures (p - removed) + added + changed == c
  {
  }

  /**
   Applying the difference to what the previous snapshot shows gives exactly what the current one shows, key
   by key; and no key occurs in two of the three lists. This holds for every way to form keys.
   */
  lemma DiffIsPatch(key: Keying, prev: seq<ElementRef>, current: seq<ElementRef>)
    ensures var d := Difference(key, prev, current);
            && Apply(key, Views(key, prev), d) == Views(key, current)
            && Views(key, d.added).Keys !! Views(key, d.changed).Keys
            && Views(key, d.added).Keys !! Views(key, d.removed).Keys
            && Views(key, d.changed).Keys !! Views(key, d.removed).Keys
  {
    var p, c := IndexOf(key, prev), IndexOf(key, current);
    var d := Difference(key, prev, current);
    IndexOfOk(key, prev);
    IndexOfOk(key, current);
    ViewsOfIndex(key, prev);
    ViewsOfIndex(key, current);
    ChosenViews(key, c, IsNew(p));
    ChosenViews(key, c, IsChanged(p, c));
    ChosenViews(key, p, IsNew(c));
    PatchViews(Views(key, prev), Views(key, current), Views(key, d.added), Views(key, d.changed),
               Views(key, d.removed), p, c);
    PartsDisjoint(Views(key, d.added), Views(key, d.changed), Views(key, d.removed), p, c);
  }

  lemma {:induction false} SelectNone(keys: seq<string>, refs: map<string, ElementRef>, choose: string -> bool)
    requires forall k | k in keys :: k in refs
    ensures Select(keys, refs, choose) == [] <==> forall k | k in keys :: !choose(k)
  {
    if keys != [] {
      assert keys == keys[..|keys| - 1] + [keys[|keys| - 1]];
      SelectNone(keys[..|keys| - 1], refs, choose);
    }
  }

  lemma SameShown(p: map<string, View>, c: map<string, View>, prev: Index, current: Index)
    requires Shows(p, prev.refs, k => true) && Shows(c, current.refs, k => true)
    ensures p == c <==> && (forall k | k in current.refs :: !IsNew(prev)(k))
                        && (forall k | k in current.refs :: !IsChanged(prev, current)(k))
                        && (forall k | k in prev.refs :: !IsNew(current)(k))
  {
    if p == c {
      forall k ensures k in prev.refs <==> k in current.refs {
        assert k in p <==> k in c;
      }
      forall k | k in current.refs ensures ViewOf(prev.refs[k]) == ViewOf(current.refs[k]) {
        assert p[k] == c[k];
      }
    }
  }

  /** The difference is empty exactly when both snapshots show the same; so it is for a snapshot and itself. */
  lemma EmptyDiffIffSameViews(key: Keying, prev: seq<ElementRef>, current: seq<ElementRef>)
    ensures Difference(key, prev, current) == Diff([], [], []) <==> Views(key, prev) == Views(key, current)
  {
    var p, c := IndexOf(key, prev), IndexOf(key, current);
    IndexOfOk(key, prev);
    IndexOfOk(key, current);
    ViewsOfIndex(key, prev);
    ViewsOfIndex(key, current);
    SelectNone(c.keys, c.refs, IsNew(p));
    SelectNone(c.keys, c.refs, IsChanged(p, c));
    SelectNone(p.keys, p.refs, IsNew(c));
    SameShown(Views(key, prev), Views(key, current), p, c);
  }

  function KeysOf(key: Keying, nodes: seq<ElementRef>): seq<string> {
    if nodes == [] then [] else KeysOf(key, nodes[..|nodes| - 1]) + [key(nodes[|nodes| - 1])]
  }

  function Chosen(keys: seq<string>, choose: string -> bool): seq<string> {
    if keys == [] then []
    else Chosen(keys[..|keys| - 1], choose) + (if choose(keys[|keys| - 1]) then [keys[|keys| - 1]] else [])
  }

  lemma DistinctPush(keys: seq<string>, k: string)
    ensures Distinct(keys + [k]) <==> Distinct(keys) && k !in keys
  {
    var all := keys + [k];
    if Distinct(all) {
      assert forall i | 0 <= i < |keys| :: all[i] == keys[i] && all[i] != all[|keys|];
    }
  }

  lemma {:induction false} ChosenDistinct(keys: seq<string>, choose: string -> bool)
    requires Distinct(keys)
    ensures Distinct(Chosen(keys, choose)) && forall k | k in Chosen(keys, choose) :: k in keys
  {
    if keys != [] {
      var front, last := keys[..|keys| - 1], keys[|keys| - 1];
      assert keys == front + [last];
      DistinctPush(front, last);
      ChosenDistinct(front, choose);
      DistinctPush(Chosen(front, choose), last);
      assert Chosen(front, choose) + [] == Chosen(front, choose);
    }
  }

  /** The keys of a list are the chosen ones, in key order; no key occurs twice within a list. */
  lemma {:induction false} SelectDistinct(key: Keying, keys: seq<string>, refs: map<string, ElementRef>,
                                          choose: string -> bool)
    requires forall k | k in keys :: k in refs && key(refs[k]) == k
    requires Distinct(keys)
    ensures KeysOf(key, Select(keys, refs, choose)) == Chosen(keys, choose) && Distinct(Chosen(keys, choose))
  {
    ChosenDistinct(keys, choose);
    if keys != [] {
      var front, last := keys[..|keys| - 1], keys[|keys| - 1];
      assert keys == front + [last];
      DistinctPush(front, last);
      SelectDistinct(key, front, refs, choose);
      var some := Select(front, refs, choose);
      assert (some + [refs[last]])[..|some|] == some && some + [] == some;
    }
  }

  // ---- What the lists contain ----

  /** The element is the last one of the list with its key. */
  ghost predicate LastWith(key: Keying, nodes: seq<ElementRef>, k: string, n: ElementRef) {
    key(n) == k
    && exists i :: 0 <= i < |nodes| && nodes[i] == n && forall j | i < j < |nodes| :: key(nodes[j]) != k
  }

  lemma {:induction false} IndexHolds(key: Keying, nodes: seq<ElementRef>, k: string, n: ElementRef)
    ensures k in IndexOf(key, nodes).refs && IndexOf(key, nodes).refs[k] == n <==> LastWith(key, nodes, k, n)
  {
    if nodes != [] {
      var front, last := nodes[..|nodes| - 1], nodes[|nodes| - 1];
      IndexHolds(key, front, k, n);
      LastWithPush(key, front, last, k, n);
      assert nodes == front + [last];
    }
  }

  lemma LastWithPush(key: Keying, front: seq<ElementRef>, last: ElementRef, k: string, n: ElementRef)
    ensures LastWith(key, front + [last], k, n) <==>
            if key(last) == k then n == last else LastWith(key, front, k, n)
  {
    var nodes := front + [last];
    if LastWith(key, nodes, k, n) {
      var i :| 0 <= i < |nodes| && nodes[i] == n && forall j | i < j < |nodes| :: key(nodes[j]) != k;
      assert i < |front| ==> key(nodes[|front|]) != k && front[i] == n;
      assert forall j | i < j < |front| :: key(front[j]) == key(nodes[j]);
    }
    if key(last) == k && n == last {
      assert nodes[|front|] == n;
    }
    if key(last) != k && LastWith(key, front, k, n) {
      var i :| 0 <= i < |front| && front[i] == n && forall j | i < j < |front| :: key(front[j]) != k;
      assert nodes[i] == n;
    }
  }

  lemma {:induction false} IndexKeys(key: Keying, nodes: seq<ElementRef>, k: string)
    ensures k in IndexOf(key, nodes).refs <==> exists i :: 0 <= i < |nodes| && key(nodes[i]) == k
  {
    if nodes != [] {
      var front, last := nodes[..|nodes| - 1], nodes[|nodes| - 1];
      IndexKeys(key, front, k);
      assert forall i | 0 <= i < |front| :: front[i] == nodes[i];
    }
  }

  lemma {:induction false} SelectMembers(keys: seq<string>, refs: map<string, ElementRef>, choose: string -> bool,
                                         n: ElementRef)
    requires forall k | k in keys :: k in refs
    ensures n in Select(keys, refs, choose) <==> exists k :: k in keys && choose(k) && refs[k] == n
  {
    if keys != [] {
      assert keys == keys[..|keys| - 1] + [keys[|keys| - 1]];
      SelectMembers(keys[..|keys| - 1], refs, choose, n);
    }
  }

  /** Some element of the list has the key. */
  ghost predicate Occurs(key: Keying, nodes: seq<ElementRef>, k: string) {
    exists i :: 0 <= i < |nodes| && key(nodes[i]) == k
  }

  /** Two elements with the same key that show something different. */
  predicate Differ(a: ElementRef, b: ElementRef) {
    a.value != b.value || a.focused != b.focused || a.disabled != b.disabled
  }

  lemma OwnKey(key: Keying, ix: Index, choose: string -> bool, n: ElementRef)
    requires IndexOk(key, ix)
    ensures n in Select(ix.keys, ix.refs, choose) <==>
            key(n) in ix.refs && ix.refs[key(n)] == n && choose(key(n))
  {
    SelectMembers(ix.keys, ix.refs, choose, n);
  }

  lemma NewMeans(key: Keying, prev: seq<ElementRef>, current: seq<ElementRef>, n: ElementRef)
    ensures n in Difference(key, prev, current).added <==>
            LastWith(key, current, key(n), n) && !Occurs(key, prev, key(n))
    ensures n in Difference(key, prev, current).removed <==>
            LastWith(key, prev, key(n), n) && !Occurs(key, current, key(n))
  {
    var p, c := IndexOf(key, prev), IndexOf(key, current);
    IndexOfOk(key, prev);
    IndexOfOk(key, current);
    IndexKeys(key, prev, key(n));
    IndexKeys(key, current, key(n));
    IndexHolds(key, prev, key(n), n);
    IndexHolds(key, current, key(n), n);
    OwnKey(key, c, IsNew(p), n);
    OwnKey(key, p, IsNew(c), n);
  }

  lemma ChangedMeans(key: Keying, prev: seq<ElementRef>, current: seq<ElementRef>, n: ElementRef)
    ensures n in Difference(key, prev, current).changed <==>
            && LastWith(key, current, key(n), n)
            && exists was :: LastWith(key, prev, key(n), was) && Differ(was, n)
  {
    var p, c := IndexOf(key, prev), IndexOf(key, current);
    IndexOfOk(key, prev);
    IndexOfOk(key, current);
    IndexHolds(key, current, key(n), n);
    OwnKey(key, c, IsChanged(p, c), n);
    if key(n) in p.refs {
      IndexHolds(key, prev, key(n), p.refs[key(n)]);
    }
    if was :| LastWith(key, prev, key(n), was) && Differ(was, n) {
      IndexHolds(key, prev, key(n), was);
    }
  }

  /**
   An element is added, or removed, exactly when it is the last one with its key in the one snapshot and the other has
   none; it is changed exactly when it is the last one with its key in the current snapshot and the last one in the
   previous snapshot differs in value, focus or being disabled.
   */
  lemma DiffMeans(key: Keying, prev: seq<ElementRef>, current: seq<ElementRef>, n: ElementRef)
    ensures var d := Difference(key, prev, current);
            && (n in d.added <==> LastWith(key, current, key(n), n) && !Occurs(key, prev, key(n)))
            && (n in d.removed <==> LastWith(key, prev, key(n), n) && !Occurs(key, current, key(n)))
            && (n in d.changed <==>
                && LastWith(key, current, key(n), n)
                && exists was :: LastWith(key, prev, key(n), was) && Differ(was, n))
  {
    NewMeans(key, prev, current, n);
    ChangedMeans(key, prev, current, n);
  }

  /** The keys are in the order in which they are first seen. */
  lemma {:induction false} KeysInOrder(key: Keying, nodes: seq<ElementRef>, i: nat, j: nat)
    requires i < j < |IndexOf(key, nodes).keys|
    ensures var keys := IndexOf(key, nodes).keys;
            exists a :: 0 <= a < |nodes| && key(nodes[a]) == keys[i] && !Occurs(key, nodes[..a + 1], keys[j])
  {
    var front, last := nodes[..|nodes| - 1], nodes[|nodes| - 1];
    IndexOfOk(key, front);
    var before := IndexOf(key, front).keys;
    if j < |before| {
      KeysInOrder(key, front, i, j);
      var a :| 0 <= a < |front| && key(front[a]) == before[i] && !Occurs(key, front[..a + 1], before[j]);
      assert front[..a + 1] == nodes[..a + 1] && key(nodes[a]) == before[i];
    } else {
      var a := FirstSeen(key, front, before[i], key(last));
      assert front[..a + 1] == nodes[..a + 1] && key(nodes[a]) == before[i];
    }
  }

  lemma FirstSeen(key: Keying, nodes: seq<ElementRef>, k: string, unseen: string) returns (a: nat)
    requires k in IndexOf(key, nodes).refs && unseen !in IndexOf(key, nodes).refs
    ensures a < |nodes| && key(nodes[a]) == k && !Occurs(key, nodes[..a + 1], unseen)
  {
    IndexKeys(key, nodes, k);
    IndexKeys(key, nodes, unseen);
    a :| 0 <= a < |nodes| && key(nodes[a]) == k;
    assert forall b | 0 <= b < a + 1 :: nodes[..a + 1][b] == nodes[b];
  }
}

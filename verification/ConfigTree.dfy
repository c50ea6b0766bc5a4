/** `blue config get/set/unset`: a mutable tree of maps addressed by dotted keys, with emptied
    sections pruned on removal (server/cmd/blue/config.go). */
module ConfigTree {
  import opened Wrappers

  // ---------------------------------------------------------------------------------------
  // Dotted keys
  // ---------------------------------------------------------------------------------------

  /** `strings.Split(key, ".")`: never empty, and parts may be empty. */
  function SplitDots(key: string): (parts: seq<string>)
    ensures parts != []
  {
    if key == "" then [""]
    else
      var rest := SplitDots(key[1..]);
      if key[0] == '.' then [""] + rest else [[key[0]] + rest[0]] + rest[1..]
  }

  function JoinDots(parts: seq<string>): string
    requires parts != []
  {
    if |parts| == 1 then parts[0] else parts[0] + "." + JoinDots(parts[1..])
  }

  /** Splitting loses nothing, so different keys address different paths. */
  lemma {:induction false} SplitJoin(key: string)
    ensures JoinDots(SplitDots(key)) == key
  {
    if key != "" {
      SplitJoin(key[1..]);
      var rest := SplitDots(key[1..]);
      if key[0] == '.' {
        assert ([""] + rest)[1..] == rest;
      } else {
        var parts := [[key[0]] + rest[0]] + rest[1..];
        assert parts[1..] == rest[1..];
        assert JoinDots(parts) == [key[0]] + JoinDots(rest);
      }
      assert key == [key[0]] + key[1..];
    }
  }

  ghost predicate DotFree(part: string) {
    '.' !in part
  }

  /** Every dot separates: no part holds one. With `SplitJoin` this fixes the split. */
  lemma {:induction false} PartsDotFree(key: string)
    ensures forall part | part in SplitDots(key) :: DotFree(part)
  {
    if key != "" {
      PartsDotFree(key[1..]);
      var rest := SplitDots(key[1..]);
      assert rest[0] in rest;
      forall part | part in SplitDots(key) ensures DotFree(part) {
        if part !in rest && key[0] != '.' {
          assert part == [key[0]] + rest[0];
        }
      }
    }
  }

  /** Joining dot-free parts and splitting again gives back the parts: every path has its key. */
  lemma {:induction false} JoinSplit(parts: seq<string>)
    requires parts != [] && forall part | part in parts :: DotFree(part)
    ensures SplitDots(JoinDots(parts)) == parts
  {
    hide SplitDots;
    var first := parts[0];
    if |parts| == 1 {
      SplitFirst(first, "");
      SplitNothing();
      assert first + "" == first;
    } else {
      JoinSplit(parts[1..]);
      SplitFirst(first, "." + JoinDots(parts[1..]));
      assert parts[0] + ("." + JoinDots(parts[1..])) == JoinDots(parts);
      SplitAtDot(JoinDots(parts[1..]));
      assert [first] + parts[1..] == parts;
    }
  }

  lemma SplitNothing()
    ensures SplitDots("") == [""]
  {
  }

  lemma SplitAtDot(rest: string)
    ensures SplitDots("." + rest) == [""] + SplitDots(rest)
  {
    assert ("." + rest)[1..] == rest;
  }

  /** Dot-free text in front becomes the beginning of the first part. */
  lemma {:induction false} SplitFirst(first: string, rest: string)
    requires DotFree(first) && (rest == "" || rest[0] == '.')
    ensures SplitDots(first + rest) == [first] + SplitDots(rest)[1..]
  {
    if first == "" {
      assert first + rest == rest;
      assert SplitDots(rest)[0] == "";
    } else {
      SplitFirst(first[1..], rest);
      assert (first + rest)[1..] == first[1..] + rest && (first + rest)[0] == first[0];
      assert first == [first[0]] + first[1..];
    }
  }

  // ---------------------------------------------------------------------------------------
  // The tree as a value
  // ---------------------------------------------------------------------------------------

  datatype Tree = Leaf(text: string) | Section(kids: map<string, Tree>)

  function Get(t: Tree, p: seq<string>): Option<Tree> {
    if p == [] then Some(t)
    else if t.Section? && p[0] in t.kids then Get(t.kids[p[0]], p[1..])
    else None
  }

  /** The subtree that a set descends into: the section there, or a new one in its place. */
  function Open(t: Tree, k: string): Tree
    requires t.Section?
  {
    if k in t.kids && t.kids[k].Section? then t.kids[k] else Section(map[])
  }

  function Set(t: Tree, p: seq<string>, v: Tree): (r: Tree)
    requires t.Section? && p != []
    ensures r.Section? && r.kids != map[]
    decreases |p|
  {
    var sub := if |p| == 1 then v else Set(Open(t, p[0]), p[1..], v);
    assert p[0] in t.kids[p[0] := sub];
    Section(t.kids[p[0] := sub])
  }

  function Delete(t: Tree, p: seq<string>): (r: Tree)
    requires t.Section?
    ensures r.Section?
    decreases |p|
  {
    if p == [] then t
    else if |p| == 1 then Section(t.kids - {p[0]})
    else if p[0] in t.kids && t.kids[p[0]].Section? then
      var sub := Delete(t.kids[p[0]], p[1..]);
      if sub.kids == map[] then Section(t.kids - {p[0]}) else Section(t.kids[p[0] := sub])
    else t
  }

  /** Setting reaches: afterwards the path holds the value, and below it the value's own content. */
  lemma {:induction false} GetAfterSet(t: Tree, p: seq<string>, v: Tree, below: seq<string>)
    requires t.Section? && p != []
    ensures Get(Set(t, p, v), p) == Some(v)
    ensures Get(Set(t, p, v), p + below) == Get(v, below)
    decreases |p|
  {
    assert (p + below)[1..] == p[1..] + below;
    if |p| == 1 {
      assert p[1..] + below == below;
      assert Get(v, p[1..]) == Some(v);
    } else {
      GetAfterSet(Open(t, p[0]), p[1..], v, below);
    }
  }

  /** Deleting removes: afterwards neither the path nor anything below it is found. */
  lemma {:induction false} GetAfterDelete(t: Tree, p: seq<string>, below: seq<string>)
    requires t.Section? && p != []
    ensures Get(Delete(t, p), p) == None && Get(Delete(t, p), p + below) == None
    decreases |p|
  {
    assert (p + below)[1..] == p[1..] + below;
    if |p| > 1 && p[0] in t.kids && t.kids[p[0]].Section? {
      GetAfterDelete(t.kids[p[0]], p[1..], below);
    } else if |p| > 1 && p[0] in t.kids {
      assert Get(t.kids[p[0]], p[1..] + below) == None;
    }
  }

  lemma {:induction false} SetTwice(t: Tree, p: seq<string>, v: Tree, w: Tree)
    requires t.Section? && p != []
    ensures Set(Set(t, p, v), p, w) == Set(t, p, w)
    decreases |p|
  {
    if |p| > 1 {
      SetTwice(Open(t, p[0]), p[1..], v, w);
      assert Open(Set(t, p, v), p[0]) == Set(Open(t, p[0]), p[1..], v);
    }
    assert Set(Set(t, p, v), p, w).kids == Set(t, p, w).kids;
  }

  lemma {:induction false} SetWhatIsThere(t: Tree, p: seq<string>)
    requires t.Section? && p != [] && Get(t, p).Some?
    ensures Set(t, p, Get(t, p).value) == t
    decreases |p|
  {
    if |p| > 1 {
      SetWhatIsThere(t.kids[p[0]], p[1..]);
    } else {
      assert Get(t.kids[p[0]], p[1..]) == Some(t.kids[p[0]]);
    }
    assert t.kids[p[0] := t.kids[p[0]]] == t.kids;
  }

  /** Deleting and setting back what was there restores the tree, also where sections were pruned. */
  lemma {:induction false} DeleteThenSetBack(t: Tree, p: seq<string>)
    requires t.Section? && p != [] && Get(t, p).Some?
    ensures Set(Delete(t, p), p, Get(t, p).value) == t
    decreases |p|
  {
    var v, d, k := Get(t, p).value, Delete(t, p), p[0];
    if |p| == 1 {
      assert Get(t.kids[k], []) == Some(t.kids[k]);
      assert (t.kids - {k})[k := v] == t.kids;
    } else {
      DeleteThenSetBack(t.kids[k], p[1..]);
      var sub := Delete(t.kids[k], p[1..]);
      assert Open(d, k) == sub;
      assert d.kids[k := t.kids[k]] == t.kids;
    }
  }

  /** The paths part: neither leads through the other. */
  ghost predicate Part(p: seq<string>, q: seq<string>) {
    !(p <= q) && !(q <= p)
  }

  lemma PartStep(p: seq<string>, q: seq<string>)
    requires Part(p, q)
    ensures p != [] && q != []
    ensures p[0] == q[0] ==> Part(p[1..], q[1..])
  {
    if p[0] == q[0] {
      assert p == [p[0]] + p[1..] && q == [q[0]] + q[1..];
    }
  }

  /** Neither operation changes what any other path finds, unless one leads through the other. */
  lemma {:induction false} OthersUnchanged(t: Tree, p: seq<string>, v: Tree, q: seq<string>)
    requires t.Section? && Part(p, q)
    ensures p != [] && Get(Set(t, p, v), q) == Get(t, q)
    ensures Get(Delete(t, p), q) == Get(t, q)
    decreases |p|
  {
    PartStep(p, q);
    if p[0] == q[0] {
      PartStep(p[1..], q[1..]);
      if p[0] in t.kids && t.kids[p[0]].Section? {
        OthersUnchanged(t.kids[p[0]], p[1..], v, q[1..]);
        assert Delete(t.kids[p[0]], p[1..]).kids == map[] ==> Get(Delete(t.kids[p[0]], p[1..]), q[1..]) == None;
      } else {
        OthersUnchanged(Section(map[]), p[1..], v, q[1..]);
      }
    }
  }

  /** What a caller can check before the pair of calls: the key is absent and every section that
      already exists on the way is non-empty. */
  ghost predicate Restorable(t: Tree, p: seq<string>) {
    && Get(t, p) == None
    && forall n | 0 < n < |p| && Get(t, p[..n]).Some? ::
         Get(t, p[..n]).value.Section? && Get(t, p[..n]).value.kids != map[]
  }

  lemma RestorableStep(t: Tree, p: seq<string>)
    requires t.Section? && |p| > 1
    ensures p[0] in t.kids ==>
      (Restorable(t, p) <==> t.kids[p[0]].Section? && t.kids[p[0]].kids != map[] && Restorable(t.kids[p[0]], p[1..]))
    ensures p[0] !in t.kids ==> Restorable(t, p)
  {
    assert p[..1] == [p[0]] && p[..1][1..] == [];
    if p[0] in t.kids {
      var c := t.kids[p[0]];
      assert Get(t, p[..1]) == Get(c, []) == Some(c);
      forall n | 1 < n < |p| ensures Get(t, p[..n]) == Get(c, p[1..][..n - 1]) {
        assert p[..n][1..] == p[1..][..n - 1];
      }
      if Restorable(t, p) {
        forall n | 0 < n < |p[1..]| && Get(c, p[1..][..n]).Some?
          ensures Get(c, p[1..][..n]).value.Section? && Get(c, p[1..][..n]).value.kids != map[]
        {
          assert Get(t, p[..n + 1]) == Get(c, p[1..][..n]);
        }
      }
    }
  }

  /** Set then delete restores the whole tree exactly when `Restorable` holds: sections created on
      the way are pruned again and sections that were there stay. */
  lemma {:induction false} SetDeleteRestores(t: Tree, p: seq<string>, v: Tree)
    requires t.Section? && p != []
    ensures Delete(Set(t, p, v), p) == t <==> Restorable(t, p)
    decreases |p|
  {
    var s := Set(t, p, v);
    if |p| == 1 {
      assert s.kids - {p[0]} == t.kids - {p[0]};
      assert p[0] in t.kids ==> Get(t.kids[p[0]], p[1..]).Some?;
      if p[0] !in t.kids { assert t.kids - {p[0]} == t.kids; }
    } else {
      RestorableStep(t, p);
      var o := Open(t, p[0]);
      var sub := Set(o, p[1..], v);
      var d := Delete(sub, p[1..]);
      SetDeleteRestores(o, p[1..], v);
      assert s.kids[p[0]] == sub;
      if d.kids == map[] {
        assert Delete(s, p) == Section(t.kids - {p[0]});
        if p[0] !in t.kids { assert t.kids - {p[0]} == t.kids; }
        if p[0] in t.kids && t.kids[p[0]].Section? && Restorable(t.kids[p[0]], p[1..]) { assert d == o; }
      } else {
        assert Delete(s, p) == Section(t.kids[p[0] := d]);
        assert s.kids[p[0] := d] == t.kids[p[0] := d];
        if p[0] in t.kids {
          if d == t.kids[p[0]] { assert t.kids[p[0] := d] == t.kids; }
          else { assert t.kids[p[0] := d][p[0]] != t.kids[p[0]]; }
        }
      }
    }
  }

  /** No section other than the root is empty. */
  ghost predicate Dense(t: Tree) {
    t.Section? ==> forall k | k in t.kids :: Dense(t.kids[k]) && t.kids[k] != Section(map[])
  }

  /** Setting keeps a tree free of empty sections exactly when the value is neither empty itself nor
      holds an empty section. */
  lemma {:induction false} SetKeepsDense(t: Tree, p: seq<string>, v: Tree)
    requires t.Section? && p != [] && Dense(t)
    ensures Dense(Set(t, p, v)) <==> Dense(v) && v != Section(map[])
    decreases |p|
  {
    var s := Set(t, p, v);
    assert p[0] in s.kids;
    if |p| > 1 {
      SetKeepsDense(Open(t, p[0]), p[1..], v);
      assert s.kids[p[0]] == Set(Open(t, p[0]), p[1..], v);
    } else {
      assert s.kids[p[0]] == v;
    }
  }

  lemma {:induction false} DeleteKeepsDense(t: Tree, p: seq<string>)
    requires t.Section? && Dense(t)
    ensures Dense(Delete(t, p))
    decreases |p|
  {
    if |p| > 1 && p[0] in t.kids && t.kids[p[0]].Section? {
      DeleteKeepsDense(t.kids[p[0]], p[1..]);
    }
  }

  datatype Command = SetKey(key: string, value: Tree) | UnsetKey(key: string)

  /** One `config set` or `config unset`; unset leaves the tree alone when the key is not found. */
  function Apply(t: Tree, c: Command): (r: Tree)
    requires t.Section?
    ensures r.Section?
  {
    match c
    case SetKey(key, v) => Set(t, SplitDots(key), v)
    case UnsetKey(key) => if Get(t, SplitDots(key)) == None then t else Delete(t, SplitDots(key))
  }

  function ApplyAll(t: Tree, cs: seq<Command>): (r: Tree)
    requires t.Section?
    ensures r.Section?
    decreases |cs|
  {
    if cs == [] then t else ApplyAll(Apply(t, cs[0]), cs[1..])
  }

  lemma TwoParts(a: string, b: string)
    requires DotFree(a) && DotFree(b)
    ensures SplitDots(a + "." + b) == [a, b]
  {
    hide SplitDots, DotFree;
    JoinSplit([a, b]);
    assert [a, b][1..] == [b];
  }

  /** The entries of the section under a name, none if there is no section. */
  function Entries(t: Tree, a: string): map<string, Tree>
    requires t.Section?
  {
    if a in t.kids && t.kids[a].Section? then t.kids[a].kids else map[]
  }

  /** A key `a.b` addresses the entry `b` of the section `a`: setting puts it there, making the section
      or replacing a plain value if need be; unsetting takes it out, and the section if nothing is left;
      getting looks there. */
  lemma DottedKey(t: Tree, a: string, b: string, v: Tree)
    requires t.Section? && DotFree(a) && DotFree(b)
    ensures Apply(t, SetKey(a + "." + b, v)) == Section(t.kids[a := Section(Entries(t, a)[b := v])])
    ensures Get(t, SplitDots(a + "." + b)) == if b in Entries(t, a) then Some(Entries(t, a)[b]) else None
    ensures Apply(t, UnsetKey(a + "." + b)) ==
            if b !in Entries(t, a) then t
            else if Entries(t, a) - {b} == map[] then Section(t.kids - {a})
            else Section(t.kids[a := Section(Entries(t, a) - {b})])
  {
    hide SplitDots, Set, Delete;
    TwoParts(a, b);
    SetTwoParts(t, a, b, v);
    GetTwoParts(t, a, b);
    if b in Entries(t, a) {
      DeleteTwoParts(t, a, b);
    }
  }

  lemma SetTwoParts(t: Tree, a: string, b: string, v: Tree)
    requires t.Section?
    ensures Set(t, [a, b], v) == Section(t.kids[a := Section(Entries(t, a)[b := v])])
  {
    assert [a, b][1..] == [b];
    var o := Open(t, a);
    assert Set(o, [b], v) == Section(o.kids[b := v]);
  }

  lemma GetTwoParts(t: Tree, a: string, b: string)
    requires t.Section?
    ensures Get(t, [a, b]) == if b in Entries(t, a) then Some(Entries(t, a)[b]) else None
  {
    assert [a, b][1..] == [b] && [b][1..] == [];
    if b in Entries(t, a) {
      assert Get(t.kids[a], [b]) == Get(t.kids[a].kids[b], []);
    }
  }

  lemma DeleteTwoParts(t: Tree, a: string, b: string)
    requires t.Section? && b in Entries(t, a)
    ensures Delete(t, [a, b]) == if Entries(t, a) - {b} == map[] then Section(t.kids - {a})
                                 else Section(t.kids[a := Section(Entries(t, a) - {b})])
  {
    assert [a, b][1..] == [b];
    assert Delete(t.kids[a], [b]) == Section(Entries(t, a) - {b});
  }

  /** The tree has no empty section before, between and after the commands. */
  ghost predicate DenseThroughout(t: Tree, cs: seq<Command>)
    requires t.Section?
    decreases |cs|
  {
    Dense(t) && (cs != [] ==> DenseThroughout(Apply(t, cs[0]), cs[1..]))
  }

  ghost predicate SetsSomething(c: Command) {
    c.SetKey? ==> Dense(c.value) && c.value != Section(map[])
  }

  /** A tree without empty sections stays so throughout a run of commands exactly when every value set
      is neither empty nor holds an empty section. */
  lemma {:induction false} RunsKeepDense(t: Tree, cs: seq<Command>)
    requires t.Section? && Dense(t)
    ensures DenseThroughout(t, cs) <==> forall c | c in cs :: SetsSomething(c)
    ensures DenseThroughout(t, cs) ==> Dense(ApplyAll(t, cs))
    decreases |cs|
  {
    if cs != [] {
      hide Set, Delete, Get, SplitDots, Dense;
      assert cs == [cs[0]] + cs[1..];
      match cs[0] {
        case SetKey(key, v) => SetKeepsDense(t, SplitDots(key), v);
        case UnsetKey(key) => DeleteKeepsDense(t, SplitDots(key));
      }
      if Dense(Apply(t, cs[0])) {
        RunsKeepDense(Apply(t, cs[0]), cs[1..]);
      } else {
        assert !SetsSomething(cs[0]);
      }
    }
  }

  /** Whatever the key, `config set key {}` leaves an empty section. */
  lemma EmptyValueStays(t: Tree, key: string)
    requires t.Section? && Dense(t)
    ensures !Dense(Apply(t, SetKey(key, Section(map[]))))
  {
    SetKeepsDense(t, SplitDots(key), Section(map[]));
  }

  /** Setting `a.b` and deleting it again removes an empty section `a` that was there before. */
  lemma EmptySectionLost(v: Tree)
    ensures var t := Section(map["a" := Section(map[])]);
            Delete(Set(t, ["a", "b"], v), ["a", "b"]) != t
  {
    var t := Section(map["a" := Section(map[])]);
    assert ["a", "b"][..1] == ["a"] && ["a"][1..] == [];
    assert Get(t, ["a"]) == Some(Section(map[])) by {
      assert Get(t.kids["a"], []) == Some(Section(map[]));
    }
    assert !Restorable(t, ["a", "b"]);
    SetDeleteRestores(t, ["a", "b"], v);
  }

  // ---------------------------------------------------------------------------------------
  // The tree on the heap
  // ---------------------------------------------------------------------------------------

  /** A `map[string]interface{}`: entries are plain values or further maps, shared by reference. */
  datatype Value = Scalar(text: string) | Nested(node: ConfigMap)

  class ConfigMap {
    var entries: map<string, Value>

    constructor ()
      ensures entries == map[]
    {
      entries := map[];
    }
  }

  /** Which map object stands where: the ghost picture of a tree on the heap. */
  datatype Shape = Plain(text: string) | Node(node: ConfigMap, kids: map<string, Shape>)

  ghost function Objects(s: Shape): set<ConfigMap> {
    if s.Plain? then {} else {s.node} + set k, o | k in s.kids && o in Objects(s.kids[k]) :: o
  }

  ghost function Erase(s: Shape): (t: Tree)
    ensures t.Section? <==> s.Node?
  {
    if s.Plain? then Leaf(s.text) else Section(map k | k in s.kids :: Erase(s.kids[k]))
  }

  ghost function ValueOf(s: Shape): Value {
    if s.Plain? then Scalar(s.text) else Nested(s.node)
  }

  /** The contents of a set of maps at one moment. */
  type Memory = map<ConfigMap, map<string, Value>>

  ghost function Now(objects: set<ConfigMap>): Memory
    reads objects
  {
    map o | o in objects :: o.entries
  }

  /** The contents agree with the picture. */
  ghost predicate Agrees(s: Shape, h: Memory) {
    s.Node? ==>
      && s.node in h && h[s.node].Keys == s.kids.Keys
      && forall k | k in s.kids :: Agrees(s.kids[k], h) && h[s.node][k] == ValueOf(s.kids[k])
  }

  /** No map object stands in two places. */
  ghost predicate Apart(s: Shape) {
    s.Node? ==>
      && (forall k | k in s.kids :: s.node !in Objects(s.kids[k]) && Apart(s.kids[k]))
      && (forall k, l | k in s.kids && l in s.kids && k != l :: Objects(s.kids[k]) !! Objects(s.kids[l]))
  }

  ghost predicate Represents(m: ConfigMap, s: Shape)
    reads Objects(s)
  {
    s.Node? && s.node == m && Apart(s) && Agrees(s, Now(Objects(s)))
  }

  ghost function Find(s: Shape, p: seq<string>): Option<Shape> {
    if p == [] then Some(s)
    else if s.Node? && p[0] in s.kids then Find(s.kids[p[0]], p[1..])
    else None
  }

  lemma {:induction false} FindErase(s: Shape, p: seq<string>)
    ensures Get(Erase(s), p) == if Find(s, p).Some? then Some(Erase(Find(s, p).value)) else None
  {
    if p != [] && s.Node? && p[0] in s.kids {
      FindErase(s.kids[p[0]], p[1..]);
    }
  }

  lemma {:induction false} FindAgrees(s: Shape, p: seq<string>, h: Memory)
    requires Agrees(s, h) && Apart(s) && Find(s, p).Some?
    ensures Agrees(Find(s, p).value, h) && Apart(Find(s, p).value) && Objects(Find(s, p).value) <= Objects(s)
  {
    if p != [] {
      FindAgrees(s.kids[p[0]], p[1..], h);
    }
  }

  lemma {:induction false} FindAppend(s: Shape, p: seq<string>, k: string)
    ensures Find(s, p + [k]) ==
      if Find(s, p).Some? && Find(s, p).value.Node? && k in Find(s, p).value.kids
      then Some(Find(s, p).value.kids[k]) else None
  {
    if p == [] {
      assert (p + [k])[1..] == [];
    } else {
      assert (p + [k])[1..] == p[1..] + [k];
      if s.Node? && p[0] in s.kids { FindAppend(s.kids[p[0]], p[1..], k); }
    }
  }

  /** Walks down the maps; a plain value on the way, or a missing entry, means not found. */
  method GetNestedKey(m: ConfigMap, key: string, ghost s: Shape) returns (r: Option<Value>)
    requires Represents(m, s)
    ensures Represents(m, s)
    ensures r == if Find(s, SplitDots(key)).Some? then Some(ValueOf(Find(s, SplitDots(key)).value)) else None
  {
    var parts := SplitDots(key);
    var current := Nested(m);
    for i := 0 to |parts|
      invariant Represents(m, s)
      invariant Find(s, parts[..i]).Some? && ValueOf(Find(s, parts[..i]).value) == current
    {
      FindAgrees(s, parts[..i], Now(Objects(s)));
      FindAppend(s, parts[..i], parts[i]);
      assert parts[..i] + [parts[i]] == parts[..i + 1];
      if current.Scalar? || parts[i] !in current.node.entries {
        FindNone(s, parts, i + 1);
        return None;
      }
      current := current.node.entries[parts[i]];
    }
    assert parts[..|parts|] == parts;
    return Some(current);
  }

  lemma {:induction false} FindNone(s: Shape, p: seq<string>, n: nat)
    requires n <= |p| && Find(s, p[..n]) == None
    ensures Find(s, p) == None
  {
    if n > 0 && s.Node? && p[0] in s.kids {
      assert p[..n][1..] == p[1..][..n - 1];
      FindNone(s.kids[p[0]], p[1..], n - 1);
    }
  }

  /** The picture after the entry `k` of the map at `p` becomes `v`. */
  ghost function Put(s: Shape, p: seq<string>, k: string, v: Shape): Shape
    requires Find(s, p).Some? && Find(s, p).value.Node?
  {
    if p == [] then s.(kids := s.kids[k := v])
    else s.(kids := s.kids[p[0] := Put(s.kids[p[0]], p[1..], k, v)])
  }

  /** A child may be exchanged for one that uses only the old child's maps and further ones. */
  lemma NewChild(s: Shape, k: string, c: Shape, extra: set<ConfigMap>)
    requires s.Node? && Apart(s) && Apart(c) && extra !! Objects(s)
    requires Objects(c) <= (if k in s.kids then Objects(s.kids[k]) else {}) + extra
    ensures Apart(s.(kids := s.kids[k := c])) && Objects(s.(kids := s.kids[k := c])) <= Objects(s) + extra
  {
    var r := s.(kids := s.kids[k := c]);
    assert forall l | l in s.kids :: Objects(s.kids[l]) <= Objects(s);
    assert forall l | l in r.kids && l != k :: l in s.kids && r.kids[l] == s.kids[l];
    hide Apart;
    assert Apart(r) by {
      forall l | l in r.kids && l != k ensures Objects(r.kids[l]) !! Objects(c) {
        KidsApart(s, k, l);
      }
      KidsApart(s, k, k);
      KidApart(r, s, k);
    }
  }

  lemma KidsApart(s: Shape, k: string, l: string)
    requires s.Node? && Apart(s)
    ensures k in s.kids && l in s.kids && k != l ==> Objects(s.kids[k]) !! Objects(s.kids[l])
    ensures k in s.kids ==> s.node !in Objects(s.kids[k]) && Apart(s.kids[k])
  {
  }

  lemma KidApart(r: Shape, s: Shape, k: string)
    requires s.Node? && r.Node? && r.node == s.node && Apart(s) && k in r.kids && Apart(r.kids[k])
             && r.node !in Objects(r.kids[k])
    requires forall l | l in r.kids && l != k ::
               l in s.kids && r.kids[l] == s.kids[l] && Objects(r.kids[l]) !! Objects(r.kids[k])
    ensures Apart(r)
  {
    hide Objects;
  }

  lemma {:induction false} PutShape(s: Shape, p: seq<string>, k: string, v: Shape)
    requires Find(s, p).Some? && Find(s, p).value.Node? && Apart(s) && Apart(v) && Objects(s) !! Objects(v)
    ensures var r := Put(s, p, k, v);
            && r.Node? && r.node == s.node && Apart(r)
            && Objects(r) <= Objects(s) + Objects(v) && Find(r, p + [k]) == Some(v)
  {
    hide Objects, Apart;
    if p == [] {
      NewChild(s, k, v, Objects(v));
      assert (p + [k])[1..] == [];
    } else {
      KidsApart(s, p[0], p[0]);
      KidObjects(s, p[0]);
      PutShape(s.kids[p[0]], p[1..], k, v);
      NewChild(s, p[0], Put(s.kids[p[0]], p[1..], k, v), Objects(v));
      assert (p + [k])[1..] == p[1..] + [k];
    }
  }

  lemma KidObjects(s: Shape, k: string)
    requires s.Node? && k in s.kids
    ensures Objects(s.kids[k]) <= Objects(s)
  {
  }

  lemma EraseChild(s: Shape, k: string, c: Shape)
    requires s.Node?
    ensures Erase(s.(kids := s.kids[k := c])) == Section(Erase(s).kids[k := Erase(c)])
    ensures Erase(s).kids.Keys == s.kids.Keys && (k in s.kids ==> Erase(s).kids[k] == Erase(s.kids[k]))
  {
    assert Erase(s.(kids := s.kids[k := c])).kids == Erase(s).kids[k := Erase(c)];
  }

  lemma {:induction false} PutErase(s: Shape, p: seq<string>, k: string, v: Shape)
    requires Find(s, p).Some? && Find(s, p).value.Node?
    ensures Erase(Put(s, p, k, v)) == Set(Erase(s), p + [k], Erase(v))
  {
    hide Erase;
    if p == [] {
      assert (p + [k])[1..] == [];
      EraseChild(s, k, v);
    } else {
      PutErase(s.kids[p[0]], p[1..], k, v);
      FindSection(s.kids[p[0]], p[1..]);
      assert (p + [k])[1..] == p[1..] + [k];
      EraseChild(s, p[0], Put(s.kids[p[0]], p[1..], k, v));
    }
  }

  lemma FindSection(s: Shape, p: seq<string>)
    requires Find(s, p).Some? && Find(s, p).value.Node?
    ensures s.Node?
  {
  }

  /** Writing one entry of one map changes the picture there and nowhere else. */
  lemma {:induction false} PutAgrees(s: Shape, p: seq<string>, k: string, v: Shape, h: Memory, h': Memory)
    requires Find(s, p).Some? && Find(s, p).value.Node? && Apart(s) && Agrees(s, h) && Agrees(v, h')
    requires var n := Find(s, p).value.node;
             && n in h && n in h' && h'[n] == h[n][k := ValueOf(v)]
             && forall o | o in Objects(s) && o != n :: o in h && o in h' && h'[o] == h[o]
    ensures Agrees(Put(s, p, k, v), h')
  {
    var n := Find(s, p).value.node;
    forall l | l in s.kids && n !in Objects(s.kids[l]) ensures Agrees(s.kids[l], h') {
      AgreesFrame(s.kids[l], h, h');
    }
    if p != [] {
      FindObject(s.kids[p[0]], p[1..]);
      PutAgrees(s.kids[p[0]], p[1..], k, v, h, h');
      FindSection(s.kids[p[0]], p[1..]);
    }
  }

  lemma {:induction false} AgreesFrame(s: Shape, h: Memory, h': Memory)
    requires Agrees(s, h) && forall o | o in Objects(s) :: o in h && o in h' && h'[o] == h[o]
    ensures Agrees(s, h')
  {
    if s.Node? {
      forall k | k in s.kids ensures Agrees(s.kids[k], h') { AgreesFrame(s.kids[k], h, h'); }
    }
  }

  lemma {:induction false} FindObject(s: Shape, p: seq<string>)
    requires Find(s, p).Some? && Find(s, p).value.Node?
    ensures Find(s, p).value.node in Objects(s)
  {
    if p != [] { FindObject(s.kids[p[0]], p[1..]); }
  }

  /** What one step of the walk finds in the map object is what the picture shows. */
  lemma StepDown(s: Shape, parts: seq<string>, i: nat, h: Memory)
    requires Apart(s) && Agrees(s, h) && i < |parts| && Find(s, parts[..i]).Some? && Find(s, parts[..i]).value.Node?
    ensures var n, k := Find(s, parts[..i]).value.node, parts[i];
            && n in Objects(s) && n in h
            && (if k in h[n] && h[n][k].Nested? then
                  var sub := Find(s, parts[..i + 1]);
                  sub.Some? && sub.value.Node? && sub.value.node == h[n][k].node
                else
                  Get(Erase(s), parts[..i + 1]).None? || !Get(Erase(s), parts[..i + 1]).value.Section?)
  {
    FindObject(s, parts[..i]);
    FindAppend(s, parts[..i], parts[i]);
    assert parts[..i + 1] == parts[..i] + [parts[i]];
    FindErase(s, parts[..i + 1]);
    FindAgrees(s, parts[..i], h);
  }

  lemma EmptyMap(n: ConfigMap)
    ensures var e := Node(n, map[]);
            && Erase(e) == Section(map[]) && Objects(e) == {n} && Apart(e)
            && Agrees(e, map[n := map[]])
  {
  }

  /** One step of the walk: into the map that is there, or into a new one put in its place. */
  method OpenSection(current: ConfigMap, parts: seq<string>, i: nat, ghost s: Shape, ghost v: Tree)
    returns (next: ConfigMap, ghost s': Shape)
    requires s.Node? && Represents(s.node, s) && i < |parts| - 1
    requires Find(s, parts[..i]).Some? && Find(s, parts[..i]).value.Node? && Find(s, parts[..i]).value.node == current
    requires current in Objects(s)
    modifies current
    ensures s'.Node? && s'.node == s.node && Represents(s.node, s')
    ensures Objects(s') <= Objects(s) + {next} && (next in Objects(s) || fresh(next))
    ensures Find(s', parts[..i + 1]).Some? && Find(s', parts[..i + 1]).value.Node?
            && Find(s', parts[..i + 1]).value.node == next
    ensures Set(Erase(s'), parts, v) == Set(Erase(s), parts, v)
  {
    hide Erase, Set, Put, Apart, Agrees, Get, Find, Objects;
    StepDown(s, parts, i, Now(Objects(s)));
    s' := s;
    if parts[i] in current.entries && current.entries[parts[i]].Nested? {
      next := current.entries[parts[i]].node;
      FindObject(s, parts[..i + 1]);
    } else {
      next := new ConfigMap();
      EmptyMap(next);
      assert Now({next}) == map[next := map[]];
      OpenThenSet(Erase(s), parts, i + 1, v);
      assert parts[..i + 1] == parts[..i] + [parts[i]];
      s' := PutEntry(current, parts[i], Nested(next), s, parts[..i], Node(next, map[]));
    }
  }

  /** Writes `val` under the last part of the key, opening maps on the way; a plain value on the way
      is replaced by a map. `s'` is the new picture. */
  method SetNestedKey(m: ConfigMap, key: string, val: Value, ghost s: Shape, ghost v: Shape) returns (ghost s': Shape)
    requires Represents(m, s) && ValueOf(v) == val && Apart(v) && Agrees(v, Now(Objects(v))) && Objects(s) !! Objects(v)
    modifies Objects(s)
    ensures Represents(m, s') && fresh(Objects(s') - Objects(s) - Objects(v))
    ensures Erase(s') == Set(Erase(s), SplitDots(key), Erase(v))
  {
    hide Erase, Set, Put, Apart, Agrees, SplitDots, Get, Find, Objects;
    var parts := SplitDots(key);
    var current := m;
    s' := s;
    FindRoot(s);
    assert parts[..0] == [];
    ghost var vs, hv := Objects(v), Now(Objects(v));
    for i := 0 to |parts| - 1
      invariant Represents(m, s') && Objects(s') !! Objects(v)
      invariant Apart(v) && Agrees(v, hv) && Now(vs) == hv
      invariant fresh(Objects(s') - Objects(s))
      invariant Find(s', parts[..i]).Some? && Find(s', parts[..i]).value.Node?
                && Find(s', parts[..i]).value.node == current
      invariant Set(Erase(s'), parts, Erase(v)) == Set(Erase(s), parts, Erase(v))
    {
      FindObject(s', parts[..i]);
      current, s' := OpenSection(current, parts, i, s', Erase(v));
    }
    var last := |parts| - 1;
    StepDown(s', parts, last, Now(Objects(s')));
    assert parts == parts[..last] + [parts[last]];
    s' := PutEntry(current, parts[last], val, s', parts[..last], v);
  }

  lemma FindRoot(s: Shape)
    ensures Find(s, []) == Some(s)
  {
  }

  /** Assigns one entry of the map standing at `p`. */
  method PutEntry(current: ConfigMap, k: string, val: Value, ghost s: Shape, ghost p: seq<string>, ghost v: Shape)
    returns (ghost s': Shape)
    requires s.Node? && Represents(s.node, s) && ValueOf(v) == val && Apart(v) && Agrees(v, Now(Objects(v)))
    requires Objects(s) !! Objects(v)
    requires Find(s, p).Some? && Find(s, p).value.Node? && Find(s, p).value.node == current && current in Objects(s)
    modifies current
    ensures s' == Put(s, p, k, v) && Represents(s.node, s')
    ensures Objects(s') <= Objects(s) + Objects(v) && Find(s', p + [k]) == Some(v)
    ensures Erase(s') == Set(Erase(s), p + [k], Erase(v))
  {
    hide Erase, Set, Put, Apart, Agrees, Find, Objects, ValueOf;
    ghost var h := Now(Objects(s));
    ObjectInMemory(s, p, h);
    current.entries := current.entries[k := val];
    s' := Put(s, p, k, v);
    PutShape(s, p, k, v);
    PutErase(s, p, k, v);
    ghost var h' := Now(Objects(s) + Objects(v));
    AgreesFrame(v, Now(Objects(v)), h');
    PutAgrees(s, p, k, v, h, h');
    AgreesObjects(s', h');
    AgreesFrame(s', h', Now(Objects(s')));
  }

  lemma ObjectInMemory(s: Shape, p: seq<string>, h: Memory)
    requires Agrees(s, h) && Apart(s) && Find(s, p).Some? && Find(s, p).value.Node?
    ensures Find(s, p).value.node in h
  {
    FindAgrees(s, p, h);
  }

  lemma {:induction false} AgreesObjects(s: Shape, h: Memory)
    requires Agrees(s, h)
    ensures Objects(s) <= h.Keys
  {
    if s.Node? {
      forall k | k in s.kids ensures Objects(s.kids[k]) <= h.Keys { AgreesObjects(s.kids[k], h); }
    }
  }

  ghost function Without(s: Shape, k: string): Shape
    requires s.Node?
  {
    s.(kids := s.kids - {k})
  }

  lemma WithoutShape(s: Shape, k: string, h: Memory, h': Memory)
    requires s.Node? && Apart(s) && Agrees(s, h) && s.node in h'
    requires h'[s.node] == h[s.node] - {k}
    requires forall o | o in Objects(s) && o != s.node :: o in h && o in h' && h'[o] == h[o]
    ensures Apart(Without(s, k)) && Objects(Without(s, k)) <= Objects(s) && Agrees(Without(s, k), h')
    ensures Erase(Without(s, k)) == Section(Erase(s).kids - {k})
  {
    WithoutApart(s, k);
    WithoutErase(s, k);
    assert forall l | l in s.kids :: s.node !in Objects(s.kids[l]) && Objects(s.kids[l]) <= Objects(s);
    forall l | l in s.kids ensures Agrees(s.kids[l], h') {
      AgreesFrame(s.kids[l], h, h');
    }
    hide Apart, Erase, Objects;
  }

  lemma WithoutApart(s: Shape, k: string)
    requires s.Node? && Apart(s)
    ensures Apart(Without(s, k)) && Objects(Without(s, k)) <= Objects(s)
  {
  }

  lemma WithoutErase(s: Shape, k: string)
    requires s.Node?
    ensures Erase(Without(s, k)) == Section(Erase(s).kids - {k})
  {
    assert Erase(Without(s, k)).kids == Erase(s).kids - {k};
  }

  /** The picture after the child under `k` becomes `c`. */
  ghost function WithChild(s: Shape, k: string, c: Shape): Shape
    requires s.Node?
  {
    s.(kids := s.kids[k := c])
  }

  lemma WithChildShape(s: Shape, k: string, c: Shape)
    requires s.Node? && Apart(s) && k in s.kids && Apart(c) && Objects(c) <= Objects(s.kids[k])
    ensures Apart(WithChild(s, k, c)) && Objects(WithChild(s, k, c)) <= Objects(s)
    ensures Erase(WithChild(s, k, c)) == Section(Erase(s).kids[k := Erase(c)])
  {
    hide Apart, Objects, Erase;
    NewChild(s, k, c, {});
    EraseChild(s, k, c);
  }

  /** Only the child under `k` changed and it is still the same map object. */
  lemma WithChildAgrees(s: Shape, k: string, c: Shape, h: Memory, h': Memory)
    requires s.Node? && Apart(s) && Agrees(s, h) && k in s.kids && s.kids[k].Node?
    requires c.Node? && c.node == s.kids[k].node && Agrees(c, h')
    requires forall o | o in Objects(s) && o !in Objects(s.kids[k]) :: o in h && o in h' && h'[o] == h[o]
    ensures Agrees(WithChild(s, k, c), h')
  {
    forall l | l in s.kids && l != k ensures Agrees(s.kids[l], h') {
      AgreesFrame(s.kids[l], h, h');
    }
  }

  /** Removes one entry of the root map. */
  method RemoveEntry(m: ConfigMap, k: string, ghost s: Shape) returns (ghost s': Shape)
    requires Represents(m, s)
    modifies m
    ensures s' == Without(s, k) && Represents(m, s') && Objects(s') <= Objects(s)
    ensures Erase(s') == Section(Erase(s).kids - {k})
    ensures m.entries == old(m.entries) - {k}
  {
    ghost var h := Now(Objects(s));
    m.entries := m.entries - {k};
    ghost var h' := Now(Objects(s));
    WithoutShape(s, k, h, h');
    s' := Without(s, k);
    AgreesFrame(s', h', Now(Objects(s')));
  }

  /** What the recursion needs to know about the child it descends into. */
  lemma ChildOf(s: Shape, k: string, h: Memory)
    requires s.Node? && Apart(s) && Agrees(s, h)
    ensures s.node in h && s.node in Objects(s)
    ensures Erase(s).Section?
    ensures k in h[s.node] && h[s.node][k].Nested? <==> k in Erase(s).kids && Erase(s).kids[k].Section?
    ensures k in h[s.node] && h[s.node][k].Nested? ==>
      var c := s.kids[k];
      && k in s.kids && c.Node? && c.node == h[s.node][k].node && Apart(c) && Agrees(c, h)
      && Objects(c) <= Objects(s) && s.node !in Objects(c) && Erase(s).kids[k] == Erase(c)
  {
  }

  lemma DeleteCases(t: Tree, keys: seq<string>)
    requires t.Section?
    ensures keys == [] ==> Delete(t, keys) == t
    ensures |keys| == 1 ==> Delete(t, keys) == Section(t.kids - {keys[0]})
    ensures |keys| > 1 && !(keys[0] in t.kids && t.kids[keys[0]].Section?) ==> Delete(t, keys) == t
    ensures |keys| > 1 && keys[0] in t.kids && t.kids[keys[0]].Section? ==>
      var d := Delete(t.kids[keys[0]], keys[1..]);
      Delete(t, keys)
      == Section(if d.kids == map[] then t.kids[keys[0] := d] - {keys[0]} else t.kids[keys[0] := d])
  {
    if |keys| > 1 && keys[0] in t.kids && t.kids[keys[0]].Section? {
      assert t.kids[keys[0] := Delete(t.kids[keys[0]], keys[1..])] - {keys[0]} == t.kids - {keys[0]};
    }
  }

  /** Deletes below the first key part, then drops that section if nothing is left in it. */
  method DeleteNestedKey(m: ConfigMap, keys: seq<string>, ghost s: Shape) returns (ghost s': Shape)
    requires Represents(m, s)
    modifies Objects(s)
    ensures Represents(m, s') && Objects(s') <= Objects(s)
    ensures Erase(s') == Delete(Erase(s), keys)
    decreases |keys|
  {
    hide Erase, Delete, Apart, Agrees, Objects, WithChild, Without;
    DeleteCases(Erase(s), keys);
    if |keys| == 0 {
      return s;
    }
    ChildOf(s, keys[0], Now(Objects(s)));
    if |keys| == 1 {
      s' := RemoveEntry(m, keys[0], s);
      return s';
    }
    if keys[0] in m.entries && m.entries[keys[0]].Nested? {
      var nested := m.entries[keys[0]].node;
      ghost var objects, h, c := Objects(s), Now(Objects(s)), s.kids[keys[0]];
      AgreesFrame(c, h, Now(Objects(c)));
      ghost var c' := DeleteNestedKey(nested, keys[1..], c);
      ghost var h' := Now(objects);
      AgreesFrame(c', Now(Objects(c')), h');
      WithChildShape(s, keys[0], c');
      WithChildAgrees(s, keys[0], c', h, h');
      s' := WithChild(s, keys[0], c');
      AgreesFrame(s', h', Now(Objects(s')));
      KidsAgree(c', h');
      WithChildNode(s, keys[0], c');
      if |nested.entries| == 0 {
        s' := RemoveEntry(m, keys[0], s');
      }
      return s';
    }
    return s;
  }

  lemma WithChildNode(s: Shape, k: string, c: Shape)
    requires s.Node?
    ensures WithChild(s, k, c).Node? && WithChild(s, k, c).node == s.node
  {
  }

  lemma KidsAgree(s: Shape, h: Memory)
    requires s.Node? && Agrees(s, h)
    ensures s.node in h && (|h[s.node]| == 0 <==> Erase(s).kids == map[])
  {
    assert h[s.node].Keys == s.kids.Keys == Erase(s).kids.Keys;
    assert h[s.node] == map[] <==> h[s.node].Keys == {};
    assert Erase(s).kids == map[] <==> Erase(s).kids.Keys == {};
  }

  lemma FindRepresents(m: ConfigMap, s: Shape, p: seq<string>)
    requires Represents(m, s) && Find(s, p).Some?
    ensures var sub := Find(s, p).value; sub.Node? ==> Represents(sub.node, sub)
  {
    hide Agrees, Apart, Find, Objects;
    var sub := Find(s, p).value;
    FindAgrees(s, p, Now(Objects(s)));
    AgreesObjects(sub, Now(Objects(s)));
    AgreesFrame(sub, Now(Objects(s)), Now(Objects(sub)));
  }

  /** The loaded configuration and the three commands on it. */
  class Config {
    var root: ConfigMap
    ghost var shape: Shape

    ghost predicate Valid()
      reads this, Objects(shape)
    {
      Represents(root, shape)
    }

    ghost function AsTree(): (t: Tree)
      reads this
      requires shape.Node?
      ensures t.Section?
    {
      Erase(shape)
    }

    /** The loaded tree, or an empty map when there is no file. */
    constructor (loaded: ConfigMap, ghost picture: Shape)
      requires Represents(loaded, picture)
      ensures Valid() && root == loaded && shape == picture
    {
      root, shape := loaded, picture;
    }

    /** A map is returned as the map object itself, which holds the tree's content at the key. */
    method RunGet(key: string) returns (value: Option<Value>)
      requires Valid()
      ensures Valid()
      ensures value.Some? <==> Get(AsTree(), SplitDots(key)).Some?
      ensures value.Some? && value.value.Scalar? ==> Get(AsTree(), SplitDots(key)) == Some(Leaf(value.value.text))
      ensures value.Some? && value.value.Nested? ==>
        var sub := Find(shape, SplitDots(key));
        sub.Some? && Represents(value.value.node, sub.value) && Get(AsTree(), SplitDots(key)) == Some(Erase(sub.value))
    {
      hide Agrees, Apart, SplitDots, Find;
      FindErase(shape, SplitDots(key));
      value := GetNestedKey(root, key, shape);
      if value.Some? {
        FindRepresents(root, shape, SplitDots(key));
      }
    }

    method RunSet(key: string, value: Value, ghost v: Shape)
      requires Valid() && ValueOf(v) == value && Apart(v) && Agrees(v, Now(Objects(v))) && Objects(shape) !! Objects(v)
      modifies this`shape, Objects(shape)
      ensures Valid() && AsTree() == Apply(old(AsTree()), SetKey(key, Erase(v)))
    {
      shape := SetNestedKey(root, key, value, shape, v);
    }

    /** Removes the key only if it is found. */
    method RunUnset(key: string) returns (found: bool)
      requires Valid()
      modifies this`shape, Objects(shape)
      ensures Valid() && AsTree() == Apply(old(AsTree()), UnsetKey(key))
      ensures found <==> Get(old(AsTree()), SplitDots(key)).Some?
    {
      var value := RunGet(key);
      if value == None {
        return false;
      }
      shape := DeleteNestedKey(root, SplitDots(key), shape);
      return true;
    }
  }

  /** Opening an empty section on the way does not change what the set arrives at. */
  lemma {:induction false} OpenThenSet(t: Tree, p: seq<string>, n: nat, v: Tree)
    requires t.Section? && 0 < n < |p|
    requires Get(t, p[..n]).None? || !Get(t, p[..n]).value.Section?
    ensures Set(Set(t, p[..n], Section(map[])), p, v) == Set(t, p, v)
    decreases n
  {
    var o := Set(t, p[..n], Section(map[]));
    if n == 1 {
      assert p[..1][1..] == [];
      assert o == Section(t.kids[p[0] := Section(map[])]);
      assert p[0] in t.kids ==> Get(t.kids[p[0]], []) == Some(t.kids[p[0]]);
    } else {
      assert p[..n][1..] == p[1..][..n - 1];
      if p[0] !in t.kids || !t.kids[p[0]].Section? {
        assert Get(Section(map[]), p[1..][..n - 1]).None?;
      }
      OpenThenSet(Open(t, p[0]), p[1..], n - 1, v);
      assert Open(o, p[0]) == Set(Open(t, p[0]), p[1..][..n - 1], Section(map[]));
    }
    assert o.kids[p[0] := Set(Open(t, p[0]), p[1..], v)] == t.kids[p[0] := Set(Open(t, p[0]), p[1..], v)];
  }
}

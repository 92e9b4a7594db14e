/** Loading a YAML tree into the registry of configuration variables:
    src/config.cpp and the registry of include/config.hpp. */
module YamlConfig {
  import opened ConfigVars
  import opened Options

  /** A parsed YAML document: only maps are descended into. */
  datatype Node =
    | Null
    | Scalar(text: string)
    | Sequence(items: seq<Node>)
    | Map(entries: seq<(string, Node)>)

  function Join(prefix: string, key: string): string {
    if prefix == "" then key else prefix + "." + key
  }

  /** The list ListAllMember appends for `node`. */
  function ListAll(prefix: string, node: Node): seq<(string, Node)>
    decreases node, 2
  {
    [(prefix, node)] + if node.Map? then ListEntries(prefix, node, 0) else []
  }

  function ListEntries(prefix: string, node: Node, i: nat): seq<(string, Node)>
    requires node.Map? && i <= |node.entries|
    decreases node, 1, |node.entries| - i
  {
    if i == |node.entries| then []
    else ListAll(Join(prefix, node.entries[i].0), node.entries[i].1) + ListEntries(prefix, node, i + 1)
  }

  // ---------- Which nodes, in which order, under which names ----------

  /** A node of the tree: the map entries to follow from the root. */
  type Pos = seq<nat>

  predicate IsPos(node: Node, pos: Pos)
    decreases |pos|
  {
    pos == [] || (node.Map? && pos[0] < |node.entries| && IsPos(node.entries[pos[0]].1, pos[1..]))
  }

  function At(node: Node, pos: Pos): Node
    requires IsPos(node, pos)
    decreases |pos|
  {
    if pos == [] then node else At(node.entries[pos[0]].1, pos[1..])
  }

  /** The dotted name of a node: the keys on the way to it, where an empty name
      so far takes no dot. */
  function PathOf(prefix: string, node: Node, pos: Pos): string
    requires IsPos(node, pos)
    decreases |pos|
  {
    if pos == [] then prefix
    else PathOf(Join(prefix, node.entries[pos[0]].0), node.entries[pos[0]].1, pos[1..])
  }

  /** Document order: a node before those below it, and those of an entry before
      those of later entries. */
  predicate Before(p: Pos, q: Pos)
    decreases |q|
  {
    q != [] && (p == [] || p[0] < q[0] || (p[0] == q[0] && Before(p[1..], q[1..])))
  }

  function Positions(node: Node): seq<Pos>
    decreases node, 2
  {
    [[]] + if node.Map? then PositionsFrom(node, 0) else []
  }

  function PositionsFrom(node: Node, i: nat): seq<Pos>
    requires node.Map? && i <= |node.entries|
    decreases node, 1, |node.entries| - i
  {
    if i == |node.entries| then [] else Under(i, Positions(node.entries[i].1)) + PositionsFrom(node, i + 1)
  }

  function Under(i: nat, ps: seq<Pos>): (r: seq<Pos>)
    ensures |r| == |ps| && forall j :: 0 <= j < |ps| ==> r[j] == [i] + ps[j]
  {
    seq(|ps|, j requires 0 <= j < |ps| => [i] + ps[j])
  }

  predicate InOrder(ps: seq<Pos>) {
    forall a, b :: 0 <= a < b < |ps| ==> Before(ps[a], ps[b])
  }

  lemma InOrderConcat(ps: seq<Pos>, qs: seq<Pos>)
    requires InOrder(ps) && InOrder(qs)
    requires forall p, q :: p in ps && q in qs ==> Before(p, q)
    ensures InOrder(ps + qs)
  {
    forall a, b | 0 <= a < b < |ps + qs| ensures Before((ps + qs)[a], (ps + qs)[b]) {
      if a < |ps| <= b {
        assert ps[a] in ps && qs[b - |ps|] in qs;
      }
    }
  }

  lemma UnderOk(i: nat, ps: seq<Pos>)
    requires InOrder(ps)
    ensures InOrder(Under(i, ps))
    ensures forall p :: p in Under(i, ps) <==> p != [] && p[0] == i && p[1..] in ps
  {
    var r := Under(i, ps);
    forall a, b | 0 <= a < b < |r| ensures Before(r[a], r[b]) {
      assert r[a][1..] == ps[a] && r[b][1..] == ps[b];
    }
    forall p | p != [] && p[0] == i && p[1..] in ps ensures p in r {
      var j :| 0 <= j < |ps| && ps[j] == p[1..];
      assert r[j] == [i] + p[1..] == p;
    }
    forall p | p in r ensures p != [] && p[0] == i && p[1..] in ps {
      var j :| 0 <= j < |r| && r[j] == p;
      assert p[1..] == ps[j];
    }
  }

  /** The listed positions are all the nodes that can be reached through maps,
      each once, in document order. */
  lemma {:induction false} PositionsOk(node: Node)
    ensures InOrder(Positions(node))
    ensures forall p :: p in Positions(node) <==> IsPos(node, p)
    decreases node, 2
  {
    if node.Map? {
      PositionsFromOk(node, 0);
      InOrderConcat([[]], PositionsFrom(node, 0));
    } else {
      assert Positions(node) == [[]];
    }
  }

  lemma {:induction false} PositionsFromOk(node: Node, i: nat)
    requires node.Map? && i <= |node.entries|
    ensures InOrder(PositionsFrom(node, i))
    ensures forall p :: p in PositionsFrom(node, i) <==> p != [] && p[0] >= i && IsPos(node, p)
    decreases node, 1, |node.entries| - i
  {
    if i < |node.entries| {
      var ps, qs := Positions(node.entries[i].1), PositionsFrom(node, i + 1);
      PositionsOk(node.entries[i].1);
      PositionsFromOk(node, i + 1);
      UnderOk(i, ps);
      InOrderConcat(Under(i, ps), qs);
    }
  }

  /** ListAllMember lists exactly these nodes, each under its own dotted name. */
  lemma {:induction false} ListsPositions(prefix: string, node: Node)
    ensures var l, ps := ListAll(prefix, node), Positions(node);
            && |l| == |ps|
            && forall i :: 0 <= i < |l| ==> IsPos(node, ps[i]) && l[i] == (PathOf(prefix, node, ps[i]), At(node, ps[i]))
    decreases node, 2
  {
    if node.Map? {
      EntriesPositions(prefix, node, 0);
    }
  }

  lemma {:induction false} EntriesPositions(prefix: string, node: Node, i: nat)
    requires node.Map? && i <= |node.entries|
    ensures var l, ps := ListEntries(prefix, node, i), PositionsFrom(node, i);
            && |l| == |ps|
            && forall j :: 0 <= j < |l| ==> IsPos(node, ps[j]) && l[j] == (PathOf(prefix, node, ps[j]), At(node, ps[j]))
    decreases node, 1, |node.entries| - i
  {
    if i < |node.entries| {
      var (key, child) := node.entries[i];
      ListsPositions(Join(prefix, key), child);
      EntriesPositions(prefix, node, i + 1);
      var ps, us := Positions(child), Under(i, Positions(child));
      forall j | 0 <= j < |ps|
        ensures IsPos(node, us[j])
        ensures ListAll(Join(prefix, key), child)[j] == (PathOf(prefix, node, us[j]), At(node, us[j]))
      {
        assert us[j][1..] == ps[j];
      }
    }
  }

  // ---------- Names ----------

  const NAME_CHARS := "abcdefghijklm" + "nopqrstuvwxyz" + "._" + "0123456789"

  predicate ValidName(name: string) {
    forall c :: c in name ==> c in NAME_CHARS
  }

  function LowerChar(c: char): char {
    if 'A' <= c <= 'Z' then c - 'A' + 'a' else c
  }

  /** std::transform with tolower. */
  function Lower(s: string): (r: string)
    ensures |r| == |s| && forall i :: 0 <= i < |s| ==> r[i] == LowerChar(s[i])
  {
    seq(|s|, i requires 0 <= i < |s| => LowerChar(s[i]))
  }

  /** Names that can be registered are untouched by lower-casing, so loading can
      reach every registered variable. */
  lemma ValidNameIsLower(name: string)
    requires ValidName(name)
    ensures Lower(name) == name
  {
    forall i | 0 <= i < |name| ensures LowerChar(name[i]) == name[i] {
      assert name[i] in name;
    }
  }

  // ---------- What loading does to one variable ----------

  /** The text a node hands to fromString. */
  function TextOf(node: Node, emit: Node -> string): string {
    if node.Scalar? then node.text else emit(node)
  }

  /** What a listed node assigns to the variable `name`, if anything. */
  function Assigned<T>(name: string, fromStr: string -> Option<T>, emit: Node -> string, p: (string, Node)): Option<T> {
    if p.0 != "" && Lower(p.0) == name then fromStr(TextOf(p.1, emit)) else None
  }

  /** A variable and the listener calls made, after the listed nodes in order. */
  function Loaded<T(==)>(x: Var<T>, name: string, fromStr: string -> Option<T>, emit: Node -> string,
                         l: seq<(string, Node)>): (Var<T>, seq<Note<T>>)
  {
    if l == [] then (x, [])
    else
      var (y, notes) := Loaded(x, name, fromStr, emit, l[..|l| - 1]);
      match Assigned(name, fromStr, emit, l[|l| - 1])
      case None => (y, notes)
      case Some(v) => (y.(val := v), notes + SetNotes(y, v))
  }

  predicate NoneFrom<T(!new)>(name: string, fromStr: string -> Option<T>, emit: Node -> string,
                              l: seq<(string, Node)>, i: nat)
  {
    forall j :: i <= j < |l| ==> Assigned(name, fromStr, emit, l[j]).None?
  }

  /** The last listed node of the variable's name whose text parses decides its
      value; without one it keeps its value. Its listeners stay. */
  lemma {:induction false} LastWins<T(!new)>(x: Var<T>, name: string, fromStr: string -> Option<T>,
                                             emit: Node -> string, l: seq<(string, Node)>)
    ensures var y := Loaded(x, name, fromStr, emit, l).0;
            && y.cbs == x.cbs
            && (NoneFrom(name, fromStr, emit, l, 0) ==> y.val == x.val)
            && (!NoneFrom(name, fromStr, emit, l, 0) ==>
                  exists i :: 0 <= i < |l| && Assigned(name, fromStr, emit, l[i]) == Some(y.val)
                              && NoneFrom(name, fromStr, emit, l, i + 1))
  {
    if l == [] {
    } else {
      var init, last := l[..|l| - 1], l[|l| - 1];
      LastWins(x, name, fromStr, emit, init);
      var y := Loaded(x, name, fromStr, emit, l).0;
      if Assigned(name, fromStr, emit, last).Some? {
        assert Assigned(name, fromStr, emit, l[|l| - 1]) == Some(y.val) &&
            NoneFrom(name, fromStr, emit, l, |l| - 1 + 1);
      } else {
        assert forall j :: 0 <= j < |init| ==> init[j] == l[j];
        if !NoneFrom(name, fromStr, emit, init, 0) {
          var i :| 0 <= i < |init| && Assigned(name, fromStr, emit, init[i]) == Some(y.val)
                   && NoneFrom(name, fromStr, emit, init, i + 1);
          assert Assigned(name, fromStr, emit, l[i]) == Some(y.val) && NoneFrom(name, fromStr, emit, l, i + 1);
        }
      }
    }
  }

  /** What the node at a position assigns to the variable `name`. */
  function AssignedAt<T>(name: string, fromStr: string -> Option<T>, emit: Node -> string, root: Node, p: Pos)
    : Option<T>
    requires IsPos(root, p)
  {
    Assigned(name, fromStr, emit, (PathOf("", root, p), At(root, p)))
  }

  lemma {:induction false} BeforeIsStrict(p: Pos, q: Pos)
    requires Before(p, q)
    ensures p != q && !Before(q, p)
    decreases |q|
  {
    if p != [] && p[0] == q[0] {
      BeforeIsStrict(p[1..], q[1..]);
    }
  }

  /** After a load, the variable has the value of the last node in the document
      that lies under its name, in whatever letter case and however its dots are
      split over the keys, and whose text parses; or else its old value. */
  lemma LastNodeWins<T(!new)>(x: Var<T>, name: string, fromStr: string -> Option<T>, emit: Node -> string, root: Node)
    ensures var y := Loaded(x, name, fromStr, emit, ListAll("", root)).0;
            if forall p :: IsPos(root, p) ==> AssignedAt(name, fromStr, emit, root, p).None? then y == x
            else exists p :: IsPos(root, p) && AssignedAt(name, fromStr, emit, root, p) == Some(y.val)
                   && forall q :: IsPos(root, q) && Before(p, q) ==> AssignedAt(name, fromStr, emit, root, q).None?
  {
    hide Assigned, Loaded, At, PathOf, IsPos, Before, ListAll, Positions;
    var l, ps := ListAll("", root), Positions(root);
    LastWins(x, name, fromStr, emit, l);
    ListsPositions("", root);
    PositionsOk(root);
    forall i | 0 <= i < |l| ensures IsPos(root, ps[i]) &&
        Assigned(name, fromStr, emit, l[i]) == AssignedAt(name, fromStr, emit, root, ps[i]) {
      assert ps[i] in ps;
    }
    if !NoneFrom(name, fromStr, emit, l, 0) {
      var y := Loaded(x, name, fromStr, emit, l).0;
      var i :| 0 <= i < |l| && Assigned(name, fromStr, emit, l[i]) == Some(y.val) &&
          NoneFrom(name, fromStr, emit, l, i + 1);
      forall q | IsPos(root, q) && Before(ps[i], q) ensures AssignedAt(name, fromStr, emit, root, q).None? {
        var j :| 0 <= j < |ps| && ps[j] == q;
        BeforeIsStrict(ps[i], ps[j]);
      }
      assert AssignedAt(name, fromStr, emit, root, ps[i]) == Some(y.val);
    } else {
      forall p | IsPos(root, p) ensures AssignedAt(name, fromStr, emit, root, p).None? {
        var j :| 0 <= j < |ps| && ps[j] == p;
      }
    }
  }

  /** The listeners hear of the changes of one load as an unbroken chain. */
  lemma {:induction false} LoadChain<T>(x: Var<T>, name: string, fromStr: string -> Option<T>, emit: Node -> string,
                                        l: seq<(string, Node)>, k: nat, next: nat)
    requires Ordered(x.cbs, next) && Registered(x.cbs, k)
    ensures var (y, notes) := Loaded(x, name, fromStr, emit, l);
            y.cbs == x.cbs && Chain(x.val, For(k, notes), y.val)
  {
    if l == [] {
    } else {
      hide For, Ordered, Registered, SetNotes, NotesFor, Assigned;
      var init := l[..|l| - 1];
      LoadChain(x, name, fromStr, emit, init, k, next);
      var (z, notes) := Loaded(x, name, fromStr, emit, init);
      match Assigned(name, fromStr, emit, l[|l| - 1])
      case None =>
      case Some(v) =>
        ForConcat(k, notes, SetNotes(z, v));
        OneSet(z, v, k, next);
        ChainConcat(x.val, For(k, notes), z.val, For(k, SetNotes(z, v)), v);
    }
  }

  lemma OneSet<T>(x: Var<T>, v: T, k: nat, next: nat)
    requires Ordered(x.cbs, next) && Registered(x.cbs, k)
    ensures Chain(x.val, For(k, SetNotes(x, v)), v)
  {
    ForNotes(k, x.cbs, x.val, v, next);
  }

  // ---------- The code, in place ----------

  class NodeList {
    var items: seq<(string, Node)>
    constructor () ensures items == [] { items := []; }
  }

  method ListAllMember(prefix: string, node: Node, output: NodeList)
    modifies output
    ensures output.items == old(output.items) + ListAll(prefix, node)
    decreases node
  {
    output.items := output.items + [(prefix, node)];
    if node.Map? {
      ghost var start := output.items;
      ghost var all := ListEntries(prefix, node, 0);
      for i := 0 to |node.entries|
        invariant output.items + ListEntries(prefix, node, i) == start + all
      {
        ghost var l := ListAll(Join(prefix, node.entries[i].0), node.entries[i].1);
        ghost var rest := ListEntries(prefix, node, i + 1);
        assert (output.items + l) + rest == output.items + (l + rest);
        var nxt := if prefix == "" then node.entries[i].0 else prefix + "." + node.entries[i].0;
        ListAllMember(nxt, node.entries[i].1, output);
      }
      assert start + all == old(output.items) + ListAll(prefix, node);
    }
  }

  /** A variable and its listeners' calls have gone through the listed nodes, in
      order, from `x` and `calls` on. */
  predicate Passed<T(==)>(x: Var<T>, calls: seq<Note<T>>, name: string, fromStr: string -> Option<T>,
                          emit: Node -> string, l: seq<(string, Node)>, y: Var<T>, now: seq<Note<T>>)
  {
    y == Loaded(x, name, fromStr, emit, l).0 && now == calls + Loaded(x, name, fromStr, emit, l).1
  }

  lemma PassedNone<T>(x: Var<T>, calls: seq<Note<T>>, name: string, fromStr: string -> Option<T>, emit: Node -> string)
    ensures Passed(x, calls, name, fromStr, emit, [], x, calls)
  {
  }

  lemma PassedStep<T>(x: Var<T>, calls: seq<Note<T>>, name: string, fromStr: string -> Option<T>, emit: Node -> string,
                      l: seq<(string, Node)>, i: nat, y: Var<T>, now: seq<Note<T>>)
    requires i < |l| && Passed(x, calls, name, fromStr, emit, l[..i], y, now)
    ensures match Assigned(name, fromStr, emit, l[i]) {
              case None => Passed(x, calls, name, fromStr, emit, l[..i + 1], y, now)
              case Some(v) => Passed(x, calls, name, fromStr, emit, l[..i + 1], y.(val := v), now + SetNotes(y, v))
            }
  {
    hide Assigned, SetNotes;
    assert l[..i + 1][..i] == l[..i] && l[..i + 1][i] == l[i];
    var notes := Loaded(x, name, fromStr, emit, l[..i]).1;
    match Assigned(name, fromStr, emit, l[i])
    case None =>
    case Some(v) => assert calls + notes + SetNotes(y, v) == calls + (notes + SetNotes(y, v));
  }

  datatype Lookup<T> = Exists(x: ConfigVar<T>) | WrongType | InvalidName | Created(x: ConfigVar<T>)

  /** The registry. T stands for the union of all value types; which of them a
      variable has is in its type name, as it is for the dynamic cast. */
  class Config<T(==)> {
    var datas: map<string, ConfigVar<T>>
    var types: map<string, string>

    ghost predicate Valid() reads this {
      && types.Keys == datas.Keys
      && forall n :: n in datas ==> datas[n].m_name == n && ValidName(n)
    }

    constructor ()
      ensures Valid() && datas == map[]
    {
      datas, types := map[], map[];
    }

    /** The creating Lookup: the first registration of a name wins. `said` is what
        it logs. */
    method LookupOrCreate(name: string, typeName: string, defaultVal: T, fromStr: string -> Option<T>,
                          toStr: T -> Option<string>, counter: KeyCounter)
      returns (r: Lookup<T>, said: string)
      requires Valid()
      modifies this
      ensures Valid()
      ensures name in old(datas) ==>
                datas == old(datas) && types == old(types)
                && r == if old(types)[name] == typeName then Exists(old(datas)[name]) else WrongType
      ensures name in old(datas) && old(types)[name] == typeName ==> said == "Lookup name = " + name + " exists"
      ensures name in old(datas) && old(types)[name] != typeName ==>
                var text := old(datas)[name].toStr(old(datas[name].m_val));
                said == "Lookup name = " + name + " exists but type was " + old(types)[name] + " not: " + typeName
                        + ", it's value is " + if text.Some? then text.value else ""
      ensures name !in old(datas) && !ValidName(name) ==>
                r == InvalidName && datas == old(datas) && types == old(types) && said == "Lookup name invalid " + name
      ensures name !in old(datas) && ValidName(name) ==>
                && r.Created? && fresh(r.x) && datas == old(datas)[name := r.x] && types == old(types)[name := typeName]
                && r.x.Value() == Var(defaultVal, []) && r.x.fromStr == fromStr && r.x.toStr == toStr
                && r.x.counter == counter && said == ""
    {
      if name in datas {
        if types[name] == typeName {
          return Exists(datas[name]), "Lookup name = " + name + " exists";
        }
        var text := datas[name].ToString();
        return WrongType, "Lookup name = " + name + " exists but type was " + types[name] + " not: " + typeName
                          + ", it's value is " + text;
      }
      if !ValidName(name) {
        return InvalidName, "Lookup name invalid " + name;
      }
      var v := new ConfigVar(name, defaultVal, fromStr, toStr, counter);
      datas := datas[name := v];
      types := types[name := typeName];
      return Created(v), "";
    }

    method LookupBase(name: string) returns (v: ConfigVar?<T>)
      ensures v == if name in datas then datas[name] else null
    {
      v := if name in datas then datas[name] else null;
    }

    /** The variable `n` has gone through the nodes `l` from `x` and `calls` on. */
    ghost predicate Through(n: string, x: Var<T>, calls: seq<Note<T>>, emit: Node -> string, l: seq<(string, Node)>)
      requires n in datas
      reads this, datas.Values
    {
      Passed(x, calls, n, datas[n].fromStr, emit, l, datas[n].Value(), datas[n].calls)
    }

    /** Every registered variable, and its listeners' calls, go through the
        listed nodes in order; nothing else changes. */
    method LoadFromYaml(root: Node, emit: Node -> string)
      requires Valid()
      modifies datas.Values
      ensures datas == old(datas)
      ensures forall n :: n in datas ==> Through(n, old(datas[n].Value()), old(datas[n].calls), emit, ListAll("", root))
    {
      hide Passed, ListAll;
      ghost var x0 := map n | n in datas :: datas[n].Value();
      ghost var c0 := map n | n in datas :: datas[n].calls;
      var allNodes := new NodeList();
      ListAllMember("", root, allNodes);
      var l := allNodes.items;
      assert [] + ListAll("", root) == ListAll("", root);
      AssignAll(l, emit, x0, c0);
    }

    method AssignAll(l: seq<(string, Node)>, emit: Node -> string,
                     ghost x0: map<string, Var<T>>, ghost c0: map<string, seq<Note<T>>>)
      requires Valid() && x0.Keys == c0.Keys == datas.Keys
      requires forall n :: n in datas ==> datas[n].Value() == x0[n] && datas[n].calls == c0[n]
      modifies datas.Values
      ensures forall n :: n in datas ==> Through(n, x0[n], c0[n], emit, l)
    {
      hide Passed;
      forall n | n in datas ensures Through(n, x0[n], c0[n], emit, l[..0]) {
        PassedNone(x0[n], c0[n], n, datas[n].fromStr, emit);
      }
      for i := 0 to |l|
        invariant forall n :: n in datas ==> Through(n, x0[n], c0[n], emit, l[..i])
      {
        NextNode(l, i, emit, x0, c0);
      }
      assert l[..|l|] == l;
    }

    method NextNode(l: seq<(string, Node)>, i: nat, emit: Node -> string,
                    ghost x0: map<string, Var<T>>, ghost c0: map<string, seq<Note<T>>>)
      requires Valid() && i < |l| && x0.Keys == c0.Keys == datas.Keys
      requires forall n :: n in datas ==> Through(n, x0[n], c0[n], emit, l[..i])
      modifies datas.Values
      ensures forall n :: n in datas ==> Through(n, x0[n], c0[n], emit, l[..i + 1])
    {
      hide Passed, Assigned, SetNotes;
      forall n | n in datas
        ensures match Assigned(n, datas[n].fromStr, emit, l[i]) {
          case None => Passed(x0[n], c0[n], n, datas[n].fromStr, emit, l[..i + 1], datas[n].Value(), datas[n].calls)
          case Some(v) =>
            Passed(x0[n], c0[n], n, datas[n].fromStr, emit, l[..i + 1], datas[n].Value().(val := v),
                   datas[n].calls + SetNotes(datas[n].Value(), v))
        }
      {
        PassedStep(x0[n], c0[n], n, datas[n].fromStr, emit, l, i, datas[n].Value(), datas[n].calls);
      }
      AssignNode(l[i], emit);
    }

    /** The body of LoadFromYaml's loop, for one listed node. */
    method AssignNode(p: (string, Node), emit: Node -> string)
      requires Valid()
      modifies datas.Values
      ensures forall n :: n in datas ==>
                match Assigned(n, datas[n].fromStr, emit, p) {
                  case None => datas[n].Value() == old(datas[n].Value()) && datas[n].calls == old(datas[n].calls)
                  case Some(v) =>
                    && datas[n].Value() == old(datas[n].Value()).(val := v)
                    && datas[n].calls == old(datas[n].calls) + SetNotes(old(datas[n].Value()), v)
                }
    {
      var key := p.0;
      if key == "" {
        return;
      }
      key := Lower(key);
      var v := LookupBase(key);
      if v != null {
        var ok := v.FromString(TextOf(p.1, emit));
      }
    }
  }
}

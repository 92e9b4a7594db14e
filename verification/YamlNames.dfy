/** What the name of a node in a YAML document is: its keys, between dots. */
module YamlNames {
  import opened YamlConfig
  import opened ConfigVars
  import opened Options

  /** A name cut at its dots. */
  function Split(s: string): (parts: seq<string>)
    ensures parts != []
  {
    if s == "" then [""]
    else
      var rest := Split(s[1..]);
      if s[0] == '.' then [""] + rest else [[s[0]] + rest[0]] + rest[1..]
  }

  function SplitAll(keys: seq<string>): seq<string> {
    if keys == [] then [] else Split(keys[0]) + SplitAll(keys[1..])
  }

  lemma {:induction false} SplitDot(a: string, b: string)
    ensures Split(a + "." + b) == Split(a) + Split(b)
  {
    var s := a + "." + b;
    if a == "" {
      assert s[0] == '.' && s[1..] == b;
    } else {
      assert s[0] == a[0] && s[1..] == a[1..] + "." + b;
      SplitDot(a[1..], b);
    }
  }

  lemma {:induction false} SplitWhole(s: string)
    requires '.' !in s
    ensures Split(s) == [s]
  {
    if s == "" {
    } else {
      SplitWhole(s[1..]);
      assert s[0] in s && s == [s[0]] + s[1..];
    }
  }

  lemma {:induction false} SplitTellsApart(a: string, b: string)
    requires Split(a) == Split(b)
    ensures a == b
  {
    if a == "" || b == "" {
    } else {
      var r, q := Split(a[1..]), Split(b[1..]);
      assert Split(a)[0] == (if a[0] == '.' then "" else [a[0]] + r[0]);
      assert Split(b)[0] == (if b[0] == '.' then "" else [b[0]] + q[0]);
      assert ([a[0]] + r[0])[0] == a[0] && ([b[0]] + q[0])[0] == b[0];
      if a[0] == '.' {
        assert Split(a)[1..] == r && Split(b)[1..] == q;
      } else {
        assert r[0] == Split(a)[0][1..] == Split(b)[0][1..] == q[0];
        assert r == [r[0]] + Split(a)[1..] && q == [q[0]] + Split(b)[1..];
      }
      SplitTellsApart(a[1..], b[1..]);
      assert a == [a[0]] + a[1..] && b == [b[0]] + b[1..];
    }
  }

  /** The keys on the way to a node. */
  function KeysTo(node: Node, pos: Pos): (keys: seq<string>)
    requires IsPos(node, pos)
    ensures |keys| == |pos|
    decreases |pos|
  {
    if pos == [] then []
    else [node.entries[pos[0]].0] + KeysTo(node.entries[pos[0]].1, pos[1..])
  }

  /** Below a node that has a name. */
  lemma {:induction false} NameBelow(prefix: string, node: Node, pos: Pos)
    requires IsPos(node, pos) && prefix != ""
    ensures PathOf(prefix, node, pos) != ""
    ensures Split(PathOf(prefix, node, pos)) == Split(prefix) + SplitAll(KeysTo(node, pos))
    decreases |pos|
  {
    hide Split;
    if pos == [] {
    } else {
      var (key, child) := node.entries[pos[0]];
      var longer := prefix + "." + key;
      SplitDot(prefix, key);
      NameBelow(longer, child, pos[1..]);
      var keys := KeysTo(node, pos);
      assert keys[0] == key && keys[1..] == KeysTo(child, pos[1..]);
      assert Split(longer) + SplitAll(keys[1..]) == Split(prefix) + (Split(key) + SplitAll(keys[1..]));
    }
  }

  /** How many empty keys come first. */
  function EmptyFirst(keys: seq<string>): (k: nat)
    ensures k <= |keys| && (forall i :: 0 <= i < k ==> keys[i] == "") && (k < |keys| ==> keys[k] != "")
  {
    if keys == [] || keys[0] != "" then 0 else
      var k := EmptyFirst(keys[1..]);
      assert forall i :: 1 <= i < |keys| ==> keys[i] == keys[1..][i - 1];
      k + 1
  }

  /** Empty keys at the start add nothing to a name; cut at its dots, the name is
      all the other keys on the way, in order, each cut at its own dots. */
  lemma {:induction false} NameIs(root: Node, pos: Pos)
    requires IsPos(root, pos)
    ensures var keys := KeysTo(root, pos);
            var k := EmptyFirst(keys);
            if k == |keys| then PathOf("", root, pos) == ""
            else PathOf("", root, pos) != "" && Split(PathOf("", root, pos)) == SplitAll(keys[k..])
    decreases |pos|
  {
    if pos == [] {
    } else {
      var (key, child) := root.entries[pos[0]];
      var keys := KeysTo(root, pos);
      if key == "" {
        NameIs(child, pos[1..]);
        assert keys[1..] == KeysTo(child, pos[1..]);
        assert keys[EmptyFirst(keys)..] == keys[1..][EmptyFirst(keys[1..])..];
      } else {
        NameBelow(key, child, pos[1..]);
        assert keys[0..] == keys;
      }
    }
  }

  predicate PlainKeys(keys: seq<string>) {
    forall i :: 0 <= i < |keys| ==> keys[i] != "" && '.' !in keys[i]
  }

  lemma {:induction false} SplitPlain(keys: seq<string>)
    requires PlainKeys(keys)
    ensures SplitAll(keys) == keys
  {
    if keys == [] {
    } else {
      SplitWhole(keys[0]);
      SplitPlain(keys[1..]);
    }
  }

  /** Where no key is empty or has a dot, the listed name of a node is its keys with
      dots between them: cut there, it gives exactly the keys, in order. */
  lemma DottedNames(root: Node, i: nat)
    requires i < |ListAll("", root)|
    ensures i < |Positions(root)| && IsPos(root, Positions(root)[i])
    ensures var keys, name := KeysTo(root, Positions(root)[i]), ListAll("", root)[i].0;
            PlainKeys(keys) ==> if keys == [] then name == "" else Split(name) == keys
  {
    hide PathOf, KeysTo, ListAll, Positions;
    ListsPositions("", root);
    var pos := Positions(root)[i];
    NameIs(root, pos);
    var keys := KeysTo(root, pos);
    if PlainKeys(keys) && keys != [] {
      SplitPlain(keys);
      assert keys[0..] == keys;
    }
  }

  /** Nodes reached by different such keys have different names. */
  lemma NamesTellApart(root: Node, p: Pos, q: Pos)
    requires IsPos(root, p) && IsPos(root, q)
    requires PlainKeys(KeysTo(root, p)) && PlainKeys(KeysTo(root, q))
    ensures PathOf("", root, p) == PathOf("", root, q) <==> KeysTo(root, p) == KeysTo(root, q)
  {
    NameOfPlain(root, p);
    NameOfPlain(root, q);
    if KeysTo(root, p) == KeysTo(root, q) && p != [] {
      SplitTellsApart(PathOf("", root, p), PathOf("", root, q));
    }
  }

  lemma NameOfPlain(root: Node, p: Pos)
    requires IsPos(root, p) && PlainKeys(KeysTo(root, p))
    ensures if p == [] then PathOf("", root, p) == ""
            else PathOf("", root, p) != "" && Split(PathOf("", root, p)) == KeysTo(root, p)
  {
    hide PathOf;
    NameIs(root, p);
    var keys := KeysTo(root, p);
    SplitPlain(keys);
    assert keys[0..] == keys;
  }

  // ---------- Letters ----------

  /** Exactly the capitals change, each to its small letter. */
  lemma LowerIs(c: char)
    ensures LowerChar(c) != c <==> 'A' <= c <= 'Z'
    ensures 'A' <= c <= 'Z' ==> 'a' <= LowerChar(c) <= 'z' && LowerChar(c) as int == c as int + 32
  {
  }

  /** The names that may be registered. */
  lemma ValidNameIff(name: string)
    ensures ValidName(name) <==>
            forall c :: c in name ==> 'a' <= c <= 'z' || '0' <= c <= '9' || c == '.' || c == '_'
  {
    hide ValidName;
    assert ValidName(name) <==> forall c :: c in name ==> c in NAME_CHARS by { ValidNameMeans(name); }
    forall c ensures c in NAME_CHARS <==> 'a' <= c <= 'z' || '0' <= c <= '9' || c == '.' || c == '_' {
      NameChar(c);
    }
  }

  lemma ValidNameMeans(name: string)
    ensures ValidName(name) <==> forall c :: c in name ==> c in NAME_CHARS
  {
  }

  lemma NameChar(c: char)
    ensures c in NAME_CHARS <==> 'a' <= c <= 'z' || '0' <= c <= '9' || c == '.' || c == '_'
  {
    FirstHalf(c);
    SecondHalf(c);
    Digit(c);
  }

  lemma FirstHalf(c: char)
    ensures c in "abcdefghijklm" <==> 'a' <= c <= 'm'
  {
    if 'a' <= c <= 'm' {
      assert "abcdefghijklm"[c as int - 'a' as int] == c;
    }
  }

  lemma SecondHalf(c: char)
    ensures c in "nopqrstuvwxyz" <==> 'n' <= c <= 'z'
  {
    if 'n' <= c <= 'z' {
      assert "nopqrstuvwxyz"[c as int - 'n' as int] == c;
    }
  }

  lemma Digit(c: char)
    ensures c in "0123456789" <==> '0' <= c <= '9'
  {
    if '0' <= c <= '9' {
      assert "0123456789"[c as int - '0' as int] == c;
    }
  }

  lemma {:induction false} SplitLower(s: string)
    ensures |Split(Lower(s))| == |Split(s)|
    ensures forall i :: 0 <= i < |Split(s)| ==> Split(Lower(s))[i] == Lower(Split(s)[i])
  {
    if s == "" {
    } else {
      var low := Lower(s);
      assert low[1..] == Lower(s[1..]);
      hide Lower;
      SplitLower(s[1..]);
      LowerFirst(s);
      if s[0] != '.' {
        LowerFirst([s[0]] + Split(s[1..])[0]);
      } else {
        LowerNone();
      }
    }
  }

  lemma LowerFirst(s: string)
    requires s != ""
    ensures Lower(s) == [LowerChar(s[0])] + Lower(s[1..]) && (LowerChar(s[0]) == '.' <==> s[0] == '.')
  {
  }

  lemma LowerNone()
    ensures Lower("") == ""
  {
  }

  // ---------- Which node sets a variable ----------

  /** A variable whose name, cut at its dots, is the keys on the way to a node, in
      any letter case, takes that node's text, or the node emitted if it is not a
      scalar, where no later node lies under its name. */
  lemma NodeSets<T(!new)>(x: Var<T>, name: string, fromStr: string -> Option<T>, emit: Node -> string,
                          root: Node, p: Pos, v: T)
    requires IsPos(root, p) && p != [] && PlainKeys(KeysTo(root, p))
    requires |Split(name)| == |p| && forall i :: 0 <= i < |p| ==> Split(name)[i] == Lower(KeysTo(root, p)[i])
    requires match At(root, p) {
               case Scalar(text) => fromStr(text) == Some(v)
               case node => fromStr(emit(node)) == Some(v)
             }
    requires forall q :: IsPos(root, q) && Before(p, q) ==> Lower(PathOf("", root, q)) != name
    ensures Loaded(x, name, fromStr, emit, ListAll("", root)).0 == x.(val := v)
  {
    hide Loaded, ListAll, PathOf, Before, IsPos, At, KeysTo, PlainKeys, Split, Lower, AssignedAt;
    NameUnder(root, p, name);
    AssignedThere(name, fromStr, emit, root, p);
    LastNodeWins(x, name, fromStr, emit, root);
    LoadedKeeps(x, name, fromStr, emit, ListAll("", root));
    var y := Loaded(x, name, fromStr, emit, ListAll("", root)).0;
    var r :| IsPos(root, r) && AssignedAt(name, fromStr, emit, root, r) == Some(y.val)
             && forall q :: IsPos(root, q) && Before(r, q) ==> AssignedAt(name, fromStr, emit, root, q).None?;
    OneIsLater(r, p);
    AssignedThere(name, fromStr, emit, root, r);
  }

  lemma NameUnder(root: Node, p: Pos, name: string)
    requires IsPos(root, p) && p != [] && PlainKeys(KeysTo(root, p))
    requires |Split(name)| == |p| && forall i :: 0 <= i < |p| ==> Split(name)[i] == Lower(KeysTo(root, p)[i])
    ensures PathOf("", root, p) != "" && Lower(PathOf("", root, p)) == name
  {
    hide PathOf, Lower, Split, PlainKeys;
    NameOfPlain(root, p);
    var full := PathOf("", root, p);
    SplitLower(full);
    assert Split(Lower(full)) == Split(name);
    SplitTellsApart(Lower(full), name);
  }

  lemma AssignedThere<T>(name: string, fromStr: string -> Option<T>, emit: Node -> string, root: Node, p: Pos)
    requires IsPos(root, p)
    ensures AssignedAt(name, fromStr, emit, root, p) ==
            if PathOf("", root, p) != "" && Lower(PathOf("", root, p)) == name
            then match At(root, p) { case Scalar(text) => fromStr(text) case node => fromStr(emit(node)) }
            else None
  {
    hide PathOf, Lower, At, IsPos;
  }

  lemma LoadedKeeps<T(!new)>(x: Var<T>, name: string, fromStr: string -> Option<T>, emit: Node -> string,
                             l: seq<(string, Node)>)
    ensures Loaded(x, name, fromStr, emit, l).0.cbs == x.cbs
  {
    LastWins(x, name, fromStr, emit, l);
  }

  lemma {:induction false} OneIsLater(p: Pos, q: Pos)
    ensures p == q || Before(p, q) || Before(q, p)
    decreases |p|
  {
    if p != [] && q != [] && p[0] == q[0] {
      OneIsLater(p[1..], q[1..]);
      assert p == [p[0]] + p[1..] && q == [q[0]] + q[1..];
    }
  }
}

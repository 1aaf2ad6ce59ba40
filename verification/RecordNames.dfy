/**
  Record names as nested maps and back.  `add_object` in
  `doc/ext/traffic-server.py` turns a dotted name into nested maps for the YAML
  file; `flatten_node` in `src/records/RecYAMLDecoder.cc`, with `CfgNode` of
  `include/records/RecYAMLDefs.h`, walks such maps and rebuilds the names.

  Values stand for the scalars the file holds; `V` is any type of them.
 */
module RecordNames {
  import opened Options

  datatype Node<V> = Leaf(value: V) | Fields(fields: map<string, Node<V>>)

  // ---------------------------------------------------------------------------
  // Nesting

  /** The position of the first dot, or the length of the name. */
  function FindDot(name: string): (i: nat)
    ensures i <= |name|
    ensures i < |name| ==> name[i] == '.'
    ensures forall j :: 0 <= j < i ==> name[j] != '.'
  {
    if name == "" || name[0] == '.' then 0 else 1 + FindDot(name[1..])
  }

  /** Set `name` to `value` in the nested maps under `config`.  Where a shorter name already holds a
      scalar the program raises an error, here None. */
  function AddObject<V>(config: Node<V>, name: string, value: V): Option<Node<V>>
    decreases |name|
  {
    if config.Leaf? then None
    else
      var i := FindDot(name);
      if i == |name| then
        Some(Fields(config.fields[name := Leaf(value)]))
      else
        var key := name[..i];
        var inner := if key in config.fields then config.fields[key] else Fields(map[]);
        match AddObject(inner, name[i + 1..], value)
        case None => None
        case Some(inner') => Some(Fields(config.fields[key := inner']))
  }

  /** Set every name to its value, in order. */
  function AddAll<V>(config: Node<V>, records: seq<(string, V)>): Option<Node<V>>
    decreases |records|
  {
    if records == [] then Some(config)
    else
      match AddObject(config, records[0].0, records[0].1)
      case None => None
      case Some(config') => AddAll(config', records[1..])
  }

  const PROXY_CONFIG := "proxy.config"

  /** The prefix that every record of the file has, or that of local records, is dropped. */
  function Strip(name: string): string {
    if "proxy.config." <= name then name[|"proxy.config."|..]
    else if "local.config." <= name then name[|"local.config."|..]
    else name
  }

  /** Either prefix is dropped, once; any other name stays as it is. */
  lemma StripDrops(rest: string, name: string)
    ensures Strip("proxy.config." + rest) == rest && Strip("local.config." + rest) == rest
    ensures !("proxy.config." <= name) && !("local.config." <= name) ==> Strip(name) == name
  {
    var p, l := "proxy.config." + rest, "local.config." + rest;
    assert p[..13] == "proxy.config." && p[13..] == rest;
    assert l[..13] == "local.config." && l[13..] == rest && l[0] == 'l';
  }

  // ---------------------------------------------------------------------------
  // Flattening

  function AppendFieldName(record: string, field: string): string {
    if record != "" then record + "." + field else field
  }

  /** The records below `node`, whose own name is `record`. */
  ghost function Flatten<V>(node: Node<V>, record: string): iset<(string, V)>
    decreases node
  {
    match node
    case Leaf(v) => iset{(record, v)}
    case Fields(fields) => iset k, e | k in fields && e in Flatten(fields[k], AppendFieldName(record, k)) :: e
  }

  // ---------------------------------------------------------------------------
  // Paths: names as sequences of fields

  type Path = seq<string>

  /** The fields of a dotted name. */
  function Split(name: string): (p: Path)
    ensures p != []
    decreases |name|
  {
    var i := FindDot(name);
    if i == |name| then [name] else [name[..i]] + Split(name[i + 1..])
  }

  function Join(path: Path): string {
    if path == [] then "" else "." + path[0] + Join(path[1..])
  }

  /** The value at the end of `path` is `v`. */
  ghost predicate Has<V>(node: Node<V>, path: Path, v: V)
    decreases |path|
  {
    match node
    case Leaf(w) => path == [] && w == v
    case Fields(fields) => path != [] && path[0] in fields && Has(fields[path[0]], path[1..], v)
  }

  lemma {:induction false} JoinSplit(name: string)
    ensures Join(Split(name)) == "." + name
    decreases |name|
  {
    var i := FindDot(name);
    if i < |name| {
      var head, tail := name[..i], name[i + 1..];
      JoinSplit(tail);
      assert name == head + "." + tail;
      SplitAtDot(head, tail, name);
      assert ([head] + Split(tail))[1..] == Split(tail);
      JoinStep(head, tail);
    } else {
      assert Split(name) == [name];
      assert [name][1..] == [];
      assert "." + name + "" == "." + name;
    }
  }

  lemma JoinStep(head: string, tail: string)
    ensures "." + head + ("." + tail) == "." + (head + "." + tail)
  {
  }

  lemma SplitIsInjective(a: string, b: string)
    requires Split(a) == Split(b)
    ensures a == b
  {
    JoinSplit(a);
    JoinSplit(b);
    DropDot(a, b);
  }

  /** How splitting begins. */
  lemma SplitAtDot(a: string, c: string, s: string)
    requires (forall j :: 0 <= j < |a| ==> a[j] != '.') && s == a + "." + c
    ensures Split(s) == [a] + Split(c)
  {
    assert s[|a|] == '.';
    assert FindDot(s) == |a|;
    assert s[..|a|] == a && s[|a| + 1..] == c;
  }

  lemma DottedAssociative(a: string, b: string, c: string)
    ensures a + "." + b + "." + c == a + "." + (b + "." + c)
  {
  }

  lemma ConsConcat(k: string, p: Path, q: Path)
    ensures [k] + (p + q) == [k] + p + q
  {
  }

  lemma {:induction false} SplitConcat(a: string, c: string, s: string)
    requires s == a + "." + c
    ensures Split(s) == Split(a) + Split(c)
    decreases |a|
  {
    var i := FindDot(a);
    if i == |a| {
      SplitAtDot(a, c, s);
    } else {
      var head, tail := a[..i], a[i + 1..];
      var inner := tail + "." + c;
      assert a == head + "." + tail;
      assert s == head + "." + inner by { DottedAssociative(head, tail, c); }
      SplitConcat(tail, c, inner);
      SplitAtDot(head, tail, a);
      SplitAtDot(head, inner, s);
      ConsConcat(head, Split(tail), Split(c));
    }
  }

  lemma {:induction false} JoinConcat(p: Path, q: Path)
    ensures Join(p + q) == Join(p) + Join(q)
    decreases |p|
  {
    if p == [] {
      assert p + q == q;
    } else {
      JoinConcat(p[1..], q);
      assert (p + q)[1..] == p[1..] + q;
    }
  }

  lemma NameOfPrefix(a: string, b: string)
    requires Split(a) <= Split(b)
    ensures a == b || a + "." <= b
  {
    var rest := Split(b)[|Split(a)|..];
    assert Split(b) == Split(a) + rest;
    JoinConcat(Split(a), rest);
    JoinSplit(a);
    JoinSplit(b);
    LongerName(a, b, Join(rest));
    if rest != [] {
      assert Join(rest)[0] == '.';
    }
  }

  lemma LongerName(a: string, b: string, rest: string)
    requires "." + b == "." + a + rest
    ensures rest == "" ==> a == b
    ensures rest != "" && rest[0] == '.' ==> a + "." <= b
  {
    assert b == ("." + b)[1..] == ("." + a + rest)[1..] == a + rest;
    if rest != "" && rest[0] == '.' {
      assert (a + rest)[..|a| + 1] == a + ".";
    }
  }

  lemma DropDot(a: string, b: string)
    requires "." + a == "." + b
    ensures a == b
  {
    assert ("." + a)[1..] == a && ("." + b)[1..] == b;
  }

  /** One name is a dotted beginning of another exactly when its fields are the other's first fields. */
  lemma PrefixOfNames(a: string, b: string)
    ensures Split(a) <= Split(b) <==> a == b || a + "." <= b
  {
    if a + "." <= b {
      var c := b[|a| + 1..];
      assert b == a + "." + c;
      SplitConcat(a, c, b);
    }
    if Split(a) <= Split(b) {
      NameOfPrefix(a, b);
    }
  }

  // ---------------------------------------------------------------------------
  // What one insertion does

  /** After an insertion the tree holds the new value, and of the old ones exactly those whose path does
      not begin with the new path. */
  lemma {:induction false} AddObjectLaw<V>(config: Node<V>, name: string, value: V, q: Path, w: V)
    requires AddObject(config, name, value).Some?
    ensures Has(AddObject(config, name, value).value, q, w) <==>
      (q == Split(name) && w == value) || (!(Split(name) <= q) && Has(config, q, w))
    decreases |name|
  {
    var i := FindDot(name);
    if i == |name| {
      if q != [] && q[0] == name {
        assert Split(name) <= q;
        assert q == [name] + q[1..];
      }
    } else {
      var key, rest := name[..i], name[i + 1..];
      var inner := if key in config.fields then config.fields[key] else Fields(map[]);
      if q != [] && q[0] == key {
        AddObjectLaw(inner, rest, value, q[1..], w);
        assert q == [key] + q[1..];
        assert Split(name) <= q <==> Split(rest) <= q[1..] by {
          assert Split(name)[1..] == Split(rest);
          PrefixTail(Split(name), q);
        }
      }
    }
  }

  lemma PrefixTail(p: Path, q: Path)
    requires p != [] && q != [] && p[0] == q[0]
    ensures p <= q <==> p[1..] <= q[1..]
  {
    assert p == [p[0]] + p[1..] && q == [q[0]] + q[1..];
    if p <= q {
      assert p == q[..|p|];
      assert p[1..] == q[1..][..|p| - 1];
    }
  }

  /** An insertion that fails met a scalar under a shorter name; `ScalarStopsInsertion` is the converse. */
  lemma {:induction false} AddObjectFails<V>(config: Node<V>, name: string, value: V) returns (q: Path, w: V)
    requires AddObject(config, name, value).None?
    ensures Has(config, q, w) && q < Split(name)
    decreases |name|
  {
    if config.Leaf? {
      q, w := [], config.value;
    } else {
      var i := FindDot(name);
      var key := name[..i];
      var inner := if key in config.fields then config.fields[key] else Fields(map[]);
      q, w := AddObjectFails(inner, name[i + 1..], value);
      assert ([key] + q)[1..] == q;
      assert [key] + q < Split(name);
      q := [key] + q;
    }
  }

  lemma {:induction false} ScalarStopsInsertion<V>(config: Node<V>, name: string, value: V, q: Path, w: V)
    requires Has(config, q, w) && q < Split(name)
    ensures AddObject(config, name, value).None?
    decreases |name|
  {
    if config.Fields? {
      var i := FindDot(name);
      assert q[0] == Split(name)[0];
      assert i < |name|;
      assert q[1..] < Split(name)[1..] == Split(name[i + 1..]);
      ScalarStopsInsertion(config.fields[q[0]], name[i + 1..], value, q[1..], w);
    }
  }

  /** A tree holds at most one value along any path. */
  lemma {:induction false} OneValuePerPath<V>(node: Node<V>, q: Path, v: V, r: Path, w: V)
    requires Has(node, q, v) && Has(node, r, w) && q <= r
    ensures q == r && v == w
    decreases |q|
  {
    if node.Fields? {
      assert q[0] == r[0];
      PrefixTail(q, r);
      OneValuePerPath(node.fields[q[0]], q[1..], v, r[1..], w);
      assert q == [q[0]] + q[1..] && r == [r[0]] + r[1..];
    }
  }

  // ---------------------------------------------------------------------------
  // What flattening yields

  lemma JoinField(record: string, k: string, path: Path)
    requires record != ""
    ensures record + Join([k] + path) == AppendFieldName(record, k) + Join(path)
  {
    assert ([k] + path)[1..] == path;
    assert record + ("." + k + Join(path)) == (record + "." + k) + Join(path);
  }

  /** Every value of the tree is a record, named by its path. */
  lemma {:induction false} FlattenYields<V>(node: Node<V>, record: string, path: Path, v: V)
    requires record != "" && Has(node, path, v)
    ensures (record + Join(path), v) in Flatten(node, record)
    decreases |path|
  {
    if node.Leaf? {
      assert record + "" == record;
    } else {
      var k := path[0];
      assert path == [k] + path[1..];
      JoinField(record, k, path[1..]);
      FlattenYields(node.fields[k], AppendFieldName(record, k), path[1..], v);
    }
  }

  /** Below a node without a name of its own, names begin with the first field, without a dot. */
  lemma FlattenUnnamed<V>(node: Node<V>, path: Path, v: V)
    requires path != [] && path[0] != "" && Has(node, path, v)
    ensures (path[0] + Join(path[1..]), v) in Flatten(node, "")
  {
    FlattenYields(node.fields[path[0]], path[0], path[1..], v);
    assert AppendFieldName("", path[0]) == path[0];
  }

  /** Every record is the value at its path. */
  lemma {:induction false} FlattenYieldsOnly<V>(node: Node<V>, record: string, n: string, v: V) returns (path: Path)
    requires record != "" && (n, v) in Flatten(node, record)
    ensures Has(node, path, v) && n == record + Join(path)
    decreases node
  {
    match node
    case Leaf(w) =>
      path := [];
      assert record + "" == record;
    case Fields(fields) =>
      var k :| k in fields && (n, v) in Flatten(fields[k], AppendFieldName(record, k));
      path := FlattenYieldsOnly(fields[k], AppendFieldName(record, k), n, v);
      JoinField(record, k, path);
      assert ([k] + path)[1..] == path;
      path := [k] + path;
  }

  // ---------------------------------------------------------------------------
  // Main results

  /** The tree holds exactly the records of `m`. */
  ghost predicate Holds<V(!new)>(config: Node<V>, m: map<string, V>) {
    forall q, w :: Has(config, q, w) <==> exists n :: n in m && q == Split(n) && w == m[n]
  }

  /** The records left after `name` is set: the longer names it covers are gone. */
  function Insert<V>(m: map<string, V>, name: string, value: V): map<string, V> {
    (map n | n in m && !(name + "." <= n) :: m[n])[name := value]
  }

  function InsertAll<V>(m: map<string, V>, records: seq<(string, V)>): map<string, V>
    decreases |records|
  {
    if records == [] then m else InsertAll(Insert(m, records[0].0, records[0].1), records[1..])
  }

  /** The last value written to each name. */
  function Written<V>(m: map<string, V>, records: seq<(string, V)>): map<string, V>
    decreases |records|
  {
    if records == [] then m else Written(m[records[0].0 := records[0].1], records[1..])
  }

  /** The fields of a record's name are its path. */
  lemma NameOfField(n: string)
    ensures PROXY_CONFIG + Join(Split(n)) == PROXY_CONFIG + "." + n
  {
    JoinSplit(n);
    assert PROXY_CONFIG + ("." + n) == PROXY_CONFIG + "." + n;
  }

  ghost function Named<V>(m: map<string, V>): iset<(string, V)> {
    iset n | n in m :: (PROXY_CONFIG + "." + n, m[n])
  }

  lemma FlattenHolds<V(!new)>(config: Node<V>, m: map<string, V>)
    requires Holds(config, m)
    ensures Flatten(config, PROXY_CONFIG) == Named(m)
  {
    forall e | e in Flatten(config, PROXY_CONFIG)
      ensures e in Named(m)
    {
      var (n, v) := e;
      var path := FlattenYieldsOnly(config, PROXY_CONFIG, n, v);
      var name :| name in m && path == Split(name) && v == m[name];
      NameOfField(name);
    }
    forall e | e in Named(m)
      ensures e in Flatten(config, PROXY_CONFIG)
    {
      var (n, v) := e;
      var name :| name in m && (n, v) == (PROXY_CONFIG + "." + name, m[name]);
      assert Has(config, Split(name), m[name]);
      FlattenYields(config, PROXY_CONFIG, Split(name), v);
      NameOfField(name);
    }
  }

  /** Inserting a name into a tree that holds exactly `m` fails exactly when a shorter name of `m` is in
      the way, and otherwise leaves `m` with the new value and without the longer names it covers. */
  lemma AddObjectHolds<V(!new)>(config: Node<V>, m: map<string, V>, name: string, value: V)
    requires Holds(config, m)
    ensures AddObject(config, name, value).None? <==> exists n :: n in m && n + "." <= name
    ensures AddObject(config, name, value).Some? ==>
      Holds(AddObject(config, name, value).value, Insert(m, name, value))
  {
    AddObjectFailsHolds(config, m, name, value);
    if AddObject(config, name, value).Some? {
      var config' := AddObject(config, name, value).value;
      var m' := Insert(m, name, value);
      forall q, w
        ensures Has(config', q, w) <==> exists n :: n in m' && q == Split(n) && w == m'[n]
      {
        AddObjectLaw(config, name, value, q, w);
        if q == Split(name) && w == value {
          assert name in m' && q == Split(name) && w == m'[name];
        } else if Has(config', q, w) {
          var n :| n in m && q == Split(n) && w == m[n];
          PrefixOfNames(name, n);
          assert n in m' && q == Split(n) && w == m'[n];
        }
        if n :| n in m' && q == Split(n) && w == m'[n] {
          PrefixOfNames(name, n);
          if n == name {
            assert Has(config', q, w);
          } else {
            assert n in m;
          }
        }
      }
    }
  }

  lemma AddObjectFailsHolds<V(!new)>(config: Node<V>, m: map<string, V>, name: string, value: V)
    requires Holds(config, m)
    ensures AddObject(config, name, value).None? <==> exists n :: n in m && n + "." <= name
  {
    if AddObject(config, name, value).None? {
      var q, w := AddObjectFails(config, name, value);
      var n :| n in m && q == Split(n) && w == m[n];
      PrefixOfNames(n, name);
      assert n in m && n + "." <= name;
    }
    if n :| n in m && n + "." <= name {
      PrefixOfNames(n, name);
      assert |n| < |name|;
      if Split(n) == Split(name) {
        SplitIsInjective(n, name);
      }
      assert Has(config, Split(n), m[n]);
      ScalarStopsInsertion(config, name, value, Split(n), m[n]);
    }
  }

  lemma {:induction false} AddAllHolds<V(!new)>(config: Node<V>, m: map<string, V>, records: seq<(string, V)>)
    requires Holds(config, m) && AddAll(config, records).Some?
    ensures Holds(AddAll(config, records).value, InsertAll(m, records))
    decreases |records|
  {
    if records != [] {
      var (n, v) := records[0];
      AddObjectHolds(config, m, n, v);
      AddAllHolds(AddObject(config, n, v).value, Insert(m, n, v), records[1..]);
    }
  }

  /** No name of the set is a dotted beginning of another. */
  ghost predicate NoneCovers(names: set<string>) {
    forall a, b :: a in names && b in names ==> !(a + "." <= b)
  }

  ghost function Names<V>(records: seq<(string, V)>): set<string> {
    set i | 0 <= i < |records| :: records[i].0
  }

  lemma NamesOfRest<V>(records: seq<(string, V)>)
    requires records != []
    ensures Names(records) == {records[0].0} + Names(records[1..])
  {
    forall n | n in Names(records)
      ensures n in {records[0].0} + Names(records[1..])
    {
      var i :| 0 <= i < |records| && records[i].0 == n;
      if i > 0 {
        assert records[1..][i - 1].0 == n;
      }
    }
    forall n | n in Names(records[1..])
      ensures n in Names(records)
    {
      var i :| 0 <= i < |records[1..]| && records[1..][i].0 == n;
      assert records[i + 1].0 == n;
    }
    assert records[0].0 in Names(records);
  }

  lemma {:induction false} WrittenNames<V>(m: map<string, V>, records: seq<(string, V)>)
    ensures Written(m, records).Keys == m.Keys + Names(records)
    decreases |records|
  {
    if records != [] {
      WrittenNames(m[records[0].0 := records[0].1], records[1..]);
      NamesOfRest(records);
    }
  }

  /** Names that do not cover one another are all inserted, the last value of each remaining. */
  lemma {:induction false} AddAllSucceeds<V(!new)>(config: Node<V>, m: map<string, V>, records: seq<(string, V)>)
    requires Holds(config, m) && NoneCovers(m.Keys + Names(records))
    ensures AddAll(config, records).Some? && Holds(AddAll(config, records).value, Written(m, records))
    decreases |records|
  {
    if records != [] {
      var (n, v) := records[0];
      NamesOfRest(records);
      AddObjectHolds(config, m, n, v);
      assert Insert(m, n, v) == m[n := v];
      AddAllSucceeds(AddObject(config, n, v).value, m[n := v], records[1..]);
    }
  }

  lemma HeldNamesDoNotCover<V(!new)>(config: Node<V>, m: map<string, V>)
    requires Holds(config, m)
    ensures NoneCovers(m.Keys)
  {
    forall a, b | a in m && b in m
      ensures !(a + "." <= b)
    {
      PrefixOfNames(a, b);
      assert Has(config, Split(a), m[a]) && Has(config, Split(b), m[b]);
      if Split(a) <= Split(b) {
        OneValuePerPath(config, Split(a), m[a], Split(b), m[b]);
        SplitIsInjective(a, b);
      }
    }
  }

  lemma NamedIsInjective<V>(a: map<string, V>, b: map<string, V>)
    requires Named(a) == Named(b)
    ensures a.Keys <= b.Keys
  {
    forall n | n in a
      ensures n in b
    {
      assert (PROXY_CONFIG + "." + n, a[n]) in Named(a);
      var k :| k in b && (PROXY_CONFIG + "." + n, a[n]) == (PROXY_CONFIG + "." + k, b[k]);
      assert (PROXY_CONFIG + "." + n)[|PROXY_CONFIG| + 1..] == n;
      assert (PROXY_CONFIG + "." + k)[|PROXY_CONFIG| + 1..] == k;
    }
  }

  /** Nesting any names and flattening the result gives back exactly the names, each with its last value,
      if and only if no name is a dotted beginning of another. */
  lemma NestThenFlatten<V(!new)>(records: seq<(string, V)>)
    ensures
      var nested := AddAll(Fields(map[]), records);
      NoneCovers(Names(records)) <==>
      nested.Some? && Flatten(nested.value, PROXY_CONFIG) == Named(Written(map[], records))
  {
    var empty: map<string, V> := map[];
    var root: Node<V> := Fields(map[]);
    var nested := AddAll(root, records);
    var written := Written(empty, records);
    assert Holds(root, empty);
    WrittenNames(empty, records);
    if NoneCovers(Names(records)) {
      AddAllSucceeds(root, empty, records);
      FlattenHolds(nested.value, written);
    }
    if nested.Some? && Flatten(nested.value, PROXY_CONFIG) == Named(written) {
      AddAllHolds(root, empty, records);
      FlattenHolds(nested.value, InsertAll(empty, records));
      HeldNamesDoNotCover(nested.value, InsertAll(empty, records));
      NamedIsInjective(written, InsertAll(empty, records));
    }
  }

  // ---------------------------------------------------------------------------
  // Names with their prefix

  /** The rebuilt name is the original one exactly for names under "proxy.config.". */
  lemma StripRoundTrip(name: string)
    ensures PROXY_CONFIG + "." + Strip(name) == name <==> "proxy.config." <= name
  {
    assert PROXY_CONFIG + "." == "proxy.config.";
    if "proxy.config." <= name {
      assert name == "proxy.config." + Strip(name);
    } else {
      var rebuilt := PROXY_CONFIG + "." + Strip(name);
      assert rebuilt[..|"proxy.config."|] == "proxy.config.";
      assert rebuilt != name;
    }
  }

  function StripAll<V>(records: seq<(string, V)>): seq<(string, V)> {
    if records == [] then [] else [(Strip(records[0].0), records[0].1)] + StripAll(records[1..])
  }

  /** The stripped names of `short` are those of `m`. */
  ghost predicate StripsTo<V(!new)>(m: map<string, V>, short: map<string, V>) {
    && (forall n :: n in m ==> "proxy.config." <= n)
    && (forall n :: n in m ==> Strip(n) in short && short[Strip(n)] == m[n])
    && (forall k :: k in short ==> PROXY_CONFIG + "." + k in m && Strip(PROXY_CONFIG + "." + k) == k)
  }

  lemma StripWrite<V(!new)>(m: map<string, V>, short: map<string, V>, n: string, v: V)
    requires StripsTo(m, short) && "proxy.config." <= n
    ensures StripsTo(m[n := v], short[Strip(n) := v])
  {
    StripRoundTrip(n);
    forall k | k in m && k != n
      ensures Strip(k) != Strip(n)
    {
      StripRoundTrip(k);
    }
  }

  lemma {:induction false} StripWritten<V(!new)>(m: map<string, V>, short: map<string, V>, records: seq<(string, V)>)
    requires StripsTo(m, short) && forall n :: n in Names(records) ==> "proxy.config." <= n
    ensures StripsTo(Written(m, records), Written(short, StripAll(records)))
    decreases |records|
  {
    if records != [] {
      var (n, v) := records[0];
      NamesOfRest(records);
      StripWrite(m, short, n, v);
      StripWritten(m[n := v], short[Strip(n) := v], records[1..]);
      assert StripAll(records)[1..] == StripAll(records[1..]);
    }
  }

  lemma UnderPrefixRoundTrip<V(!new)>(records: seq<(string, V)>)
    requires forall n :: n in Names(records) ==> "proxy.config." <= n
    ensures
      var nested := AddAll(Fields(map[]), StripAll(records));
      NoneCovers(Names(StripAll(records))) <==>
      nested.Some? && Flatten(nested.value, PROXY_CONFIG) == AsRecords(Written(map[], records))
  {
    var empty: map<string, V> := map[];
    var written, short := Written(empty, records), Written(empty, StripAll(records));
    NestThenFlatten(StripAll(records));
    StripWritten(empty, empty, records);
    var whole := AsRecords(written);
    forall n | n in written
      ensures (n, written[n]) in Named(short)
    {
      StripRoundTrip(n);
      assert Strip(n) in short && (n, written[n]) == (PROXY_CONFIG + "." + Strip(n), short[Strip(n)]);
    }
    forall k | k in short
      ensures (PROXY_CONFIG + "." + k, short[k]) in whole
    {
      assert PROXY_CONFIG + "." + k in written;
    }
    assert Named(short) == whole;
  }

  ghost function AsRecords<V>(m: map<string, V>): iset<(string, V)> {
    iset n | n in m :: (n, m[n])
  }

  /** Whatever a tree of fields holds, flattening it reports only names under "proxy.config.". */
  lemma FlattenedIsUnderPrefix<V>(config: Node<V>, n: string, v: V)
    requires config.Fields? && (n, v) in Flatten(config, PROXY_CONFIG)
    ensures "proxy.config." <= n
  {
    var path := FlattenYieldsOnly(config, PROXY_CONFIG, n, v);
    assert Join(path) == "." + path[0] + Join(path[1..]);
  }

  lemma {:induction false} NestedIsFields<V>(config: Node<V>, records: seq<(string, V)>)
    requires config.Fields? && AddAll(config, records).Some?
    ensures AddAll(config, records).value.Fields?
    decreases |records|
  {
    if records != [] {
      NestedIsFields(AddObject(config, records[0].0, records[0].1).value, records[1..]);
    }
  }

  /** Strip, nest, flatten gives back every full name with its last value, if and only if all names are under
      "proxy.config." and no stripped name is a dotted beginning of another. */
  lemma RecordsRoundTrip<V(!new)>(records: seq<(string, V)>)
    ensures
      var nested := AddAll(Fields(map[]), StripAll(records));
      (forall n :: n in Names(records) ==> "proxy.config." <= n) && NoneCovers(Names(StripAll(records))) <==>
      nested.Some? && Flatten(nested.value, PROXY_CONFIG) == AsRecords(Written(map[], records))
  {
    if forall n :: n in Names(records) ==> "proxy.config." <= n {
      UnderPrefixRoundTrip(records);
    } else {
      var n :| n in Names(records) && !("proxy.config." <= n);
      var empty: map<string, V> := map[];
      var written := Written(empty, records);
      WrittenNames(empty, records);
      var nested := AddAll(Fields(map[]), StripAll(records));
      assert n in written && (n, written[n]) in AsRecords(written);
      if nested.Some? && (n, written[n]) in Flatten(nested.value, PROXY_CONFIG) {
        NestedIsFields(Fields(map[]), StripAll(records));
        FlattenedIsUnderPrefix(nested.value, n, written[n]);
      }
    }
  }
}

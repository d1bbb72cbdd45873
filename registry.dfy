/*
 * The keyed class registry (powerpages/utils/class_registry/registry.py):
 * classes are filed under `<package>.<ClassName>`, registered and
 * unregistered in place, looked up by key, and listed as form choices
 * sorted by label.
 */
module ClassRegistry {
  import opened Outcomes
  import opened Strings

  /** What the registry needs of a class: its module path, its name and its optional label. */
  datatype ClassInfo = ClassInfo(moduleName: string, name: string, verboseName: Option<string>)

  /** The registry's errors (and the IndexError of a module path without a package). */
  datatype RegistryError = AlreadyRegistered(key: string) | NotRegistered(key: string) | NoPackage(moduleName: string)

  /** `get_key_from_class`: the second-to-last part of the module path, a dot, the class name. */
  function KeyFromClass(cls: ClassInfo): (r: Result<string, RegistryError>)
    ensures r.Err? <==> '.' !in cls.moduleName
    ensures r.Err? ==> r.error == NoPackage(cls.moduleName)
    ensures r.Ok? ==> EndsWith(r.value, "." + cls.name)
  {
    var parts := Split(cls.moduleName, '.');
    SplitSingle(cls.moduleName, '.');
    if |parts| < 2 then
      Err(NoPackage(cls.moduleName))
    else
      var key := parts[|parts| - 2] + "." + cls.name;
      assert key[|key| - |"." + cls.name|..] == "." + cls.name;
      Ok(key)
  }

  /** A string splits into one piece exactly when it has no delimiter. */
  lemma SplitSingle(s: string, d: char)
    ensures |Split(s, d)| == 1 <==> d !in s
  {
    if d !in s {
      SplitNoDelim(s, d);
    } else if |Split(s, d)| == 1 {
      JoinSplit(s, d);
    }
  }

  /** A class defined in `<prefix>.<package>.<leaf>` is filed under `<package>.<ClassName>`. */
  lemma KeyOfNestedModule(prefix: string, package: string, leaf: string, cls: ClassInfo)
    requires '.' !in package && '.' !in leaf
    requires cls.moduleName == prefix + "." + package + "." + leaf
    ensures KeyFromClass(cls) == Ok(package + "." + cls.name)
  {
    var tail := package + ['.'] + leaf;
    assert cls.moduleName == prefix + ['.'] + tail;
    PackageLeafSplit(package, leaf);
    SplitAt(prefix, tail, '.');
    var parts := Split(prefix, '.') + [package, leaf];
    assert parts[|parts| - 2] == package;
  }

  /** `<package>.<leaf>` splits into its two parts. */
  lemma PackageLeafSplit(package: string, leaf: string)
    requires '.' !in package && '.' !in leaf
    ensures Split(package + ['.'] + leaf, '.') == [package, leaf]
  {
    SplitAt(package, leaf, '.');
    SplitNoDelim(package, '.');
    SplitNoDelim(leaf, '.');
  }

  /** A class defined in a two-part module `<package>.<leaf>` is filed under `<package>.<ClassName>`. */
  lemma KeyOfTopModule(package: string, leaf: string, cls: ClassInfo)
    requires '.' !in package && '.' !in leaf
    requires cls.moduleName == package + "." + leaf
    ensures KeyFromClass(cls) == Ok(package + "." + cls.name)
  {
    assert cls.moduleName == package + ['.'] + leaf;
    PackageLeafSplit(package, leaf);
  }

  /** `get_item_label`: the class's `verbose_name` when it has one, else the key. */
  function Label(key: string, cls: ClassInfo): string
  {
    cls.verboseName.GetOr(key)
  }

  /** The registry after `register`, or the error it raises (the registry then unchanged). */
  function Registered(reg: map<string, ClassInfo>, cls: ClassInfo): (r: Result<map<string, ClassInfo>, RegistryError>)
    ensures KeyFromClass(cls).Err? ==> r == Err(KeyFromClass(cls).error)
    ensures KeyFromClass(cls).Ok? ==>
      var key := KeyFromClass(cls).value;
      (key in reg ==> r == Err(AlreadyRegistered(key))) &&
      (key !in reg ==> r.Ok? && r.value.Keys == reg.Keys + {key} && r.value[key] == cls &&
                       forall k :: k in reg ==> r.value[k] == reg[k])
  {
    var key :- KeyFromClass(cls);
    if key in reg then Err(AlreadyRegistered(key)) else Ok(reg[key := cls])
  }

  /** The registry after `unregister`, or the error it raises. */
  function Unregistered(reg: map<string, ClassInfo>, cls: ClassInfo): (r: Result<map<string, ClassInfo>, RegistryError>)
    ensures KeyFromClass(cls).Err? ==> r == Err(KeyFromClass(cls).error)
    ensures KeyFromClass(cls).Ok? ==>
      var key := KeyFromClass(cls).value;
      (key !in reg ==> r == Err(NotRegistered(key))) &&
      (key in reg ==> r.Ok? && r.value.Keys == reg.Keys - {key} && forall k :: k in r.value ==> r.value[k] == reg[k])
  {
    var key :- KeyFromClass(cls);
    if key !in reg then Err(NotRegistered(key)) else Ok(reg - {key})
  }

  /** Registering a class and unregistering it again leaves the registry as it was. */
  lemma RegisterThenUnregister(reg: map<string, ClassInfo>, cls: ClassInfo)
    requires Registered(reg, cls).Ok?
    ensures Unregistered(Registered(reg, cls).value, cls) == Ok(reg)
  {
    var key := KeyFromClass(cls).value;
    assert Registered(reg, cls).value - {key} == reg;
  }

  /** A class can be registered once only: the second attempt is refused. */
  lemma RegisterTwiceRefused(reg: map<string, ClassInfo>, cls: ClassInfo, other: ClassInfo)
    requires Registered(reg, cls).Ok? && KeyFromClass(other) == KeyFromClass(cls)
    ensures Registered(Registered(reg, cls).value, other) == Err(AlreadyRegistered(KeyFromClass(cls).value))
  {
  }

  /** The choices in label order (each label at most the next one in code-point order). */
  predicate SortedByLabel(choices: seq<(string, string)>)
  {
    forall i, j :: 0 <= i < j < |choices| ==> LessEq(choices[i].1, choices[j].1)
  }

  /** Place a choice after every choice whose label is not greater than its own. */
  function InsertByLabel(c: (string, string), sorted: seq<(string, string)>): (r: seq<(string, string)>)
    requires SortedByLabel(sorted)
    ensures SortedByLabel(r)
    ensures multiset(r) == multiset(sorted) + multiset{c}
  {
    if sorted == [] then [c]
    else if LessEq(c.1, sorted[0].1) && c.1 != sorted[0].1 then
      forall j | 0 <= j < |sorted|
        ensures LessEq(c.1, sorted[j].1)
      {
        if j > 0 { LessEqTransitive(c.1, sorted[0].1, sorted[j].1); }
      }
      [c] + sorted
    else
      var rest := InsertByLabel(c, sorted[1..]);
      assert sorted == [sorted[0]] + sorted[1..];
      LessEqTotal(c.1, sorted[0].1);
      LessEqReflexive(c.1);
      assert LessEq(sorted[0].1, c.1);
      forall j | 0 <= j < |rest|
        ensures LessEq(sorted[0].1, rest[j].1)
      {
        assert rest[j] in multiset(rest);
        if rest[j] != c {
          assert rest[j] in multiset(sorted[1..]);
          var k :| 0 <= k < |sorted[1..]| && sorted[1..][k] == rest[j];
          assert sorted[k + 1] == rest[j];
        }
      }
      [sorted[0]] + rest
  }

  /** `sorted(choices, key=label)`: a stable insertion sort on the labels. */
  function SortByLabel(choices: seq<(string, string)>): (r: seq<(string, string)>)
    ensures SortedByLabel(r)
    ensures multiset(r) == multiset(choices)
  {
    if choices == [] then []
    else
      var n := |choices|;
      assert choices == choices[..n - 1] + [choices[n - 1]];
      InsertByLabel(choices[n - 1], SortByLabel(choices[..n - 1]))
  }

  /** The (key, label) pair of each of `keys`, in order. */
  function PairsOf(keys: seq<string>, reg: map<string, ClassInfo>): (r: seq<(string, string)>)
    requires forall i :: 0 <= i < |keys| ==> keys[i] in reg
    ensures |r| == |keys|
    ensures forall i :: 0 <= i < |r| ==> r[i] == (keys[i], Label(keys[i], reg[keys[i]]))
    ensures forall k :: k in keys ==> (k, Label(k, reg[k])) in r
  {
    if keys == [] then [] else [(keys[0], Label(keys[0], reg[keys[0]]))] + PairsOf(keys[1..], reg)
  }

  /** The registered keys in increasing order. */
  function KeysInOrder(reg: map<string, ClassInfo>): (keys: seq<string>)
    ensures |keys| == |reg.Keys|
    ensures forall i :: 0 <= i < |keys| ==> keys[i] in reg
    ensures forall k :: k in reg ==> k in keys
  {
    Sorted(reg.Keys)
  }

  /** The (key, label) pair of every registered class, keys in increasing order. */
  function Entries(reg: map<string, ClassInfo>): (r: seq<(string, string)>)
    ensures |r| == |reg.Keys|
    ensures forall i :: 0 <= i < |r| ==> r[i].0 in reg && r[i].1 == Label(r[i].0, reg[r[i].0])
    ensures forall k :: k in reg ==> (k, Label(k, reg[k])) in r
  {
    PairsOf(KeysInOrder(reg), reg)
  }

  /** `as_choices`: one (key, label) pair per registered class, sorted by label. */
  function AsChoices(reg: map<string, ClassInfo>): (r: seq<(string, string)>)
    ensures SortedByLabel(r)
    ensures |r| == |reg.Keys|
    ensures forall k :: k in reg <==> exists c :: c in r && c.0 == k
    ensures forall c :: c in r ==> c.0 in reg && c.1 == Label(c.0, reg[c.0])
  {
    var entries := Entries(reg);
    var r := SortByLabel(entries);
    assert |r| == |multiset(r)| == |multiset(entries)| == |entries|;
    forall c | c in r
      ensures c in entries
    {
      assert c in multiset(r);
    }
    forall k | k in reg
      ensures exists c :: c in r && c.0 == k
    {
      var c := (k, Label(k, reg[k]));
      assert c in multiset(entries);
      assert c in r;
    }
    r
  }

  /** The registry, which `register` and `unregister` change in place. */
  class Registry {
    var registry: map<string, ClassInfo>

    constructor()
      ensures registry == map[]
    {
      registry := map[];
    }

    /** `register`: file the class under its key; a key already taken is refused and nothing changes. */
    method Register(cls: ClassInfo) returns (err: Option<RegistryError>)
      modifies this
      ensures Registered(old(registry), cls).Ok? ==> err == None && registry == Registered(old(registry), cls).value
      ensures Registered(old(registry), cls).Err? ==> err == Some(Registered(old(registry), cls).error) && registry == old(registry)
    {
      var key := KeyFromClass(cls);
      if key.Err? {
        return Some(key.error);
      }
      if key.value in registry {
        return Some(AlreadyRegistered(key.value));
      }
      registry := registry[key.value := cls];
      err := None;
    }

    /** `unregister`: remove the class's key; an unknown key is refused and nothing changes. */
    method Unregister(cls: ClassInfo) returns (err: Option<RegistryError>)
      modifies this
      ensures Unregistered(old(registry), cls).Ok? ==> err == None && registry == Unregistered(old(registry), cls).value
      ensures Unregistered(old(registry), cls).Err? ==> err == Some(Unregistered(old(registry), cls).error) && registry == old(registry)
    {
      var key := KeyFromClass(cls);
      if key.Err? {
        return Some(key.error);
      }
      if key.value !in registry {
        return Some(NotRegistered(key.value));
      }
      registry := registry - {key.value};
      err := None;
    }

    /** `get`: the class filed under `key`, or NotRegistered. */
    function Get(key: string): (r: Result<ClassInfo, RegistryError>)
      reads this
      ensures r.Ok? <==> key in registry
      ensures r.Ok? ==> r.value == registry[key]
      ensures r.Err? ==> r.error == NotRegistered(key)
    {
      if key !in registry then Err(NotRegistered(key)) else Ok(registry[key])
    }

    /** `as_choices` on the current registry. */
    function Choices(): (r: seq<(string, string)>)
      reads this
      ensures r == AsChoices(registry)
    {
      AsChoices(registry)
    }
  }

  /** After a successful registration, `get` of the class's key finds the class. */
  lemma GetAfterRegister(reg: map<string, ClassInfo>, cls: ClassInfo)
    requires Registered(reg, cls).Ok?
    ensures var key := KeyFromClass(cls).value;
      key in Registered(reg, cls).value && Registered(reg, cls).value[key] == cls
  {
  }
}

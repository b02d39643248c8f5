/** How the disk store turns the description of an object or a list into a key. */
module StoreKeys {
  import opened Collections
  import Strs

  /** storage.KeyBuildInfo. */
  datatype Info = Info(component: string, resource: string, group: string, version: string, namespace: string,
    name: string)

  function Segment(x: string): string
  {
    if x == "" then "" else "/" + x
  }

  function ResourceDir(enhanced: bool, info: Info): string
  {
    if enhanced then info.resource + "." + info.version + "." + (if info.group == "" then "core" else info.group)
    else info.resource
  }

  /** diskStorage.KeyFunc, for parts that filepath.Join leaves as they are. */
  function KeyOf(enhanced: bool, info: Info): Option<string>
  {
    if info.component == "" || info.resource == "" then None
    else
      var base := info.component + "/" + ResourceDir(enhanced, info);
      Some(base + (if info.resource == "namespaces" then "" else Segment(info.namespace)) + Segment(info.name))
  }

  function Base(enhanced: bool, info: Info): string
  {
    info.component + "/" + ResourceDir(enhanced, info)
  }

  lemma SegmentSplits(ns: string, name: string)
    requires '/' !in ns && '/' !in name && name != ""
    ensures Strs.Split(Segment(ns) + Segment(name), '/') == if ns == "" then ["", name] else ["", ns, name]
  {
    if ns == "" {
      assert Segment(ns) + Segment(name) == "" + ['/'] + name;
      Strs.SplitAtSeparator("", name, '/');
    } else {
      assert Segment(ns) + Segment(name) == "" + ['/'] + (ns + ['/'] + name);
      Strs.SplitAtSeparator("", ns + ['/'] + name, '/');
      Strs.SplitAtSeparator(ns, name, '/');
    }
    Strs.SplitOne(name, '/');
  }

  lemma SuffixCancels(base: string, a: string, b: string)
    requires base + a == base + b
    ensures a == b
  {
    assert a == (base + a)[|base|..];
    assert b == (base + b)[|base|..];
  }

  // ---------- reading a key back ----------

  /** ExtractKeyBuildInfo on the path of a key that is not a root key. */
  function Extract(key: string): Option<Info>
  {
    var path := if key != "" && key[0] == '/' then key[1..] else key;
    var elems := Strs.SplitN(path, '/', 3);
    if |elems| < 3 then None
    else
      var (known, resource, version, group) := ParseResource(elems[1]);
      if !known then None
      else
        var nn := Strs.SplitN(elems[2], '/', 2);
        var (namespace, name) := if |nn| == 1 then ("", nn[0]) else if |nn| == 2 then (nn[0], nn[1]) else ("", "");
        Some(Info(elems[0], resource, group, version, namespace, name))
  }

  /** The parts of the resource directory, with core for the empty group undone. */
  function ParseResource(dir: string): (bool, string, string, string)
  {
    var parts := Strs.SplitN(dir, '.', 3);
    if |parts| == 1 then (true, parts[0], "", "")
    else if |parts| == 3 then (true, parts[0], parts[1], if parts[2] == "core" then "" else parts[2])
    else (false, "", "", "")
  }

  /** No part of the description holds the path separator; the file system could not hold such a part. */
  predicate PathSafe(info: Info)
  {
    && info.component != "" && info.resource != ""
    && '/' !in info.component && '/' !in info.resource && '/' !in info.version
    && '/' !in info.group && '/' !in info.namespace && '/' !in info.name
  }

  /** The namespace that KeyFunc puts in the path. */
  function PathNamespace(info: Info): string
  {
    if info.resource == "namespaces" then "" else info.namespace
  }

  /** What the store key of an object keeps of its description. */
  predicate Recoverable(enhanced: bool, info: Info)
  {
    && '.' !in info.resource && PathNamespace(info) == info.namespace
    && (if enhanced then '.' !in info.version && info.group != "core" else info.version == "" && info.group == "")
  }

  lemma ParsedResourceIsClean(dir: string)
    ensures var (known, resource, version, group) := ParseResource(dir);
            known ==> '.' !in resource && '.' !in version && group != "core"
  {
    var parts := Strs.SplitN(dir, '.', 3);
    if |parts| == 1 || |parts| == 3 {
      Strs.SplitNFree(dir, '.', 3, 0);
      if |parts| == 3 { Strs.SplitNFree(dir, '.', 3, 1); }
    }
  }

  lemma ParseEnhancedDir(info: Info)
    requires '.' !in info.resource && '.' !in info.version && info.group != "core"
    ensures ParseResource(ResourceDir(true, info)) == (true, info.resource, info.version, info.group)
  {
    var group := if info.group == "" then "core" else info.group;
    assert ResourceDir(true, info) == info.resource + ['.'] + (info.version + ['.'] + group);
    Strs.SplitNAtSeparator(info.resource, info.version + ['.'] + group, '.', 3);
    Strs.SplitNAtSeparator(info.version, group, '.', 2);
    Strs.SplitNOnce(group, '.');
  }

  lemma ParsePlainDir(info: Info)
    requires '.' !in info.resource
    ensures ParseResource(ResourceDir(false, info)) == (true, info.resource, "", "")
  {
    Strs.SplitOne(info.resource, '.');
  }

  /** Outside enhancement mode a directory that gives its resource back has no version and no group. */
  lemma PlainDirLosesVersion(info: Info)
    ensures var (known, resource, version, group) := ParseResource(ResourceDir(false, info));
            known && resource == info.resource ==> version == "" && group == ""
  {
    ParsedResourceIsClean(info.resource);
    if '.' !in info.resource { ParsePlainDir(info); }
  }

  function NamespaceName(info: Info): string
  {
    if PathNamespace(info) == "" then info.name else PathNamespace(info) + "/" + info.name
  }

  lemma KeyPath(enhanced: bool, info: Info)
    requires PathSafe(info) && info.name != ""
    ensures KeyOf(enhanced, info).value ==
            info.component + ['/'] + (ResourceDir(enhanced, info) + ['/'] + NamespaceName(info))
  {
  }

  lemma DirHasNoSlash(enhanced: bool, info: Info)
    requires PathSafe(info)
    ensures '/' !in ResourceDir(enhanced, info)
  {
  }

  lemma KeySplits(enhanced: bool, info: Info)
    requires PathSafe(info) && info.name != ""
    ensures Strs.SplitN(KeyOf(enhanced, info).value, '/', 3) ==
            [info.component, ResourceDir(enhanced, info), NamespaceName(info)]
  {
    var dir, nn := ResourceDir(enhanced, info), NamespaceName(info);
    KeyPath(enhanced, info);
    DirHasNoSlash(enhanced, info);
    Strs.SplitNAtSeparator(info.component, dir + ['/'] + nn, '/', 3);
    Strs.SplitNAtSeparator(dir, nn, '/', 2);
    Strs.SplitNOnce(nn, '/');
  }

  lemma NamespaceNameSplits(ns: string, name: string)
    requires '/' !in ns && '/' !in name
    ensures Strs.SplitN(if ns == "" then name else ns + "/" + name, '/', 2) == if ns == "" then [name] else [ns, name]
  {
    Strs.SplitOne(name, '/');
    if ns != "" {
      Strs.SplitNAtSeparator(ns, name, '/', 2);
      Strs.SplitNOnce(name, '/');
    }
  }

  lemma ExtractReads(enhanced: bool, info: Info)
    requires PathSafe(info) && info.name != ""
    ensures var (known, resource, version, group) := ParseResource(ResourceDir(enhanced, info));
            Extract(KeyOf(enhanced, info).value)
            == if known then Some(Info(info.component, resource, group, version, PathNamespace(info), info.name))
              else None
  {
    KeySplits(enhanced, info);
    NamespaceNameSplits(PathNamespace(info), info.name);
    assert KeyOf(enhanced, info).value[0] == info.component[0];
  }

  /**
   * Round trip: reading back the key of an object gives the description it was
   * built from exactly when the key keeps all of it.
   */
  lemma ExtractUndoesKeyIff(enhanced: bool, info: Info)
    requires PathSafe(info) && info.name != ""
    ensures Extract(KeyOf(enhanced, info).value) == Some(info) <==> Recoverable(enhanced, info)
  {
    ExtractReads(enhanced, info);
    ParsedResourceIsClean(ResourceDir(enhanced, info));
    if enhanced {
      if '.' !in info.resource && '.' !in info.version && info.group != "core" { ParseEnhancedDir(info); }
    } else {
      PlainDirLosesVersion(info);
      if '.' !in info.resource { ParsePlainDir(info); }
    }
  }

  /** A key is not read at all exactly when it has fewer than three elements or its second one has a single dot. */
  lemma ExtractFailsIff(key: string)
    ensures var elems := Strs.Split(if key != "" && key[0] == '/' then key[1..] else key, '/');
            Extract(key).None? <==> |elems| < 3 || |Strs.Split(elems[1], '.')| == 2
  {
    var path := if key != "" && key[0] == '/' then key[1..] else key;
    assert |Strs.Split(path, '/')| >= 3 ==> Strs.SplitN(path, '/', 3)[1] == Strs.Split(path, '/')[1];
  }

  /** So in enhancement mode two objects that the key keeps in full never share a key. */
  lemma RecoverableKeysDiffer(a: Info, b: Info)
    requires PathSafe(a) && PathSafe(b) && a.name != "" && b.name != ""
    requires Recoverable(true, a) && Recoverable(true, b) && KeyOf(true, a) == KeyOf(true, b)
    ensures a == b
  {
    ExtractUndoesKeyIff(true, a);
    ExtractUndoesKeyIff(true, b);
  }
}

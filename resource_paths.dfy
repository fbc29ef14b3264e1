/** The path registry of KoResourcePaths (libs/widgetutils/KoResourcePaths.cpp):
    resource types map to lists of directories relative to the data location
    ("relatives") and to lists of absolute directories ("absolutes").  The
    registry is an object whose two maps the add methods update; the lookups
    that only compute strings are functions. */
module ResourcePaths {

  /** The QStandardPaths locations a resource type can map to. */
  datatype StandardLocation = TempLocation | AppDataLocation | CacheLocation

  /** The type-to-location table: "tmp" and "cache" have their own
      locations, every other type (named or not) lives in the application
      data location. */
  function MapTypeToStandardLocation(resourceType: string): (loc: StandardLocation)
    ensures loc == TempLocation <==> resourceType == "tmp"
    ensures loc == CacheLocation <==> resourceType == "cache"
    ensures loc == AppDataLocation <==> resourceType != "tmp" && resourceType != "cache"
  {
    if resourceType == "tmp" then TempLocation
    else if resourceType == "appdata" then AppDataLocation
    else if resourceType == "data" then AppDataLocation
    else if resourceType == "cache" then CacheLocation
    else if resourceType == "locale" then AppDataLocation
    else AppDataLocation
  }

  predicate EndsWith(s: string, t: string)
  {
    |t| <= |s| && s[|s| - |t|..] == t
  }

  predicate EndsWithSlash(p: string)
  {
    |p| > 0 && p[|p| - 1] == '/'
  }

  /** The registered form of a directory: a '/' is appended unless the
      name already ends in one. */
  function WithTrailingSlash(p: string): (r: string)
    ensures EndsWithSlash(r)
    ensures EndsWithSlash(p) ==> r == p
    ensures !EndsWithSlash(p) ==> r == p + "/"
  {
    if EndsWith(p, "/") then p else p + "/"
  }

  predicate Distinct(l: seq<string>)
  {
    forall i, j | 0 <= i < j < |l| :: l[i] != l[j]
  }

  /** A list of directories as the registry keeps it: each ends in '/',
      none is listed twice. */
  predicate PathList(l: seq<string>)
  {
    Distinct(l) && forall i | 0 <= i < |l| :: EndsWithSlash(l[i])
  }

  ghost predicate WellFormed(m: map<string, seq<string>>)
  {
    forall t | t in m :: PathList(m[t])
  }

  /** The list stored for a type; a type never registered reads as empty. */
  function Entry(m: map<string, seq<string>>, resourceType: string): seq<string>
  {
    if resourceType in m then m[resourceType] else []
  }

  /** Adding a directory to one type's list: nothing changes when it is
      already listed; otherwise it goes in front with priority, at the end
      without. */
  function AddPath(l: seq<string>, copy: string, priority: bool): (r: seq<string>)
    ensures copy in r
    ensures forall p :: p in r <==> p in l || p == copy
    ensures copy in l ==> r == l
    ensures copy !in l && priority ==> r == [copy] + l
    ensures copy !in l && !priority ==> r == l + [copy]
  {
    if copy in l then l
    else if priority then [copy] + l
    else l + [copy]
  }

  /** addResourceTypeInternal on the relatives map: an empty relative name
      is ignored; otherwise the type's entry is found or inserted (empty),
      and the name with a trailing '/' is added to it. */
  function AddResourceType(m: map<string, seq<string>>, resourceType: string,
                           relativename: string, priority: bool): (r: map<string, seq<string>>)
    ensures relativename == [] ==> r == m
    ensures relativename != [] ==> resourceType in r
    ensures relativename != [] ==>
              r[resourceType] == AddPath(Entry(m, resourceType), WithTrailingSlash(relativename), priority)
    ensures forall t | t != resourceType :: (t in r <==> t in m) && (t in m ==> r[t] == m[t])
  {
    if relativename == [] then m
    else m[resourceType := AddPath(Entry(m, resourceType), WithTrailingSlash(relativename), priority)]
  }

  /** addResourceDirInternal on the absolutes map: an empty directory or an
      empty type is ignored; otherwise as for relative names. */
  function AddResourceDir(m: map<string, seq<string>>, resourceType: string,
                          absdir: string, priority: bool): (r: map<string, seq<string>>)
    ensures absdir == [] || resourceType == [] ==> r == m
    ensures absdir != [] && resourceType != [] ==> resourceType in r
    ensures absdir != [] && resourceType != [] ==>
              r[resourceType] == AddPath(Entry(m, resourceType), WithTrailingSlash(absdir), priority)
    ensures forall t | t != resourceType :: (t in r <==> t in m) && (t in m ==> r[t] == m[t])
  {
    if absdir == [] || resourceType == [] then m
    else m[resourceType := AddPath(Entry(m, resourceType), WithTrailingSlash(absdir), priority)]
  }

  /** Private::aliases: the relative directories of a type, then its
      absolute ones. */
  function Aliases(relatives: map<string, seq<string>>, absolutes: map<string, seq<string>>,
                   resourceType: string): (r: seq<string>)
    ensures |r| == |Entry(relatives, resourceType)| + |Entry(absolutes, resourceType)|
    ensures forall i | 0 <= i < |Entry(relatives, resourceType)| :: r[i] == relatives[resourceType][i]
    ensures forall i | 0 <= i < |Entry(absolutes, resourceType)| ::
              r[|Entry(relatives, resourceType)| + i] == absolutes[resourceType][i]
  {
    Entry(relatives, resourceType) + Entry(absolutes, resourceType)
  }

  /** The string part of saveLocationInternal.  `writable` stands for
      QStandardPaths::writableLocation.  With aliases, the first alias under
      the writable location (the suffix is not used); without, the writable
      location followed by "/krita" unless it already ends so, then "/" and
      the suffix when there is one. */
  function SaveLocation(writable: StandardLocation -> string,
                        relatives: map<string, seq<string>>, absolutes: map<string, seq<string>>,
                        resourceType: string, suffix: string): (path: string)
    ensures writable(MapTypeToStandardLocation(resourceType)) <= path
    ensures var aliases := Aliases(relatives, absolutes, resourceType);
            |aliases| > 0 ==> EndsWith(path, "/" + aliases[0])
    ensures |Aliases(relatives, absolutes, resourceType)| == 0 && suffix == [] ==> EndsWith(path, "krita")
    ensures |Aliases(relatives, absolutes, resourceType)| == 0 && suffix != [] ==>
              EndsWith(path, "/" + suffix) && EndsWith(path[..|path| - |suffix| - 1], "krita")
  {
    var aliases := Aliases(relatives, absolutes, resourceType);
    var base := writable(MapTypeToStandardLocation(resourceType));
    if |aliases| > 0 then Under(base, aliases[0])
    else
      var dir := if EndsWith(base, "krita") then base else Under(base, "krita");
      assert base <= dir && EndsWith(dir, "krita");
      if suffix != [] then Under(dir, suffix) else dir
  }

  /** `dir + "/" + name`. */
  function Under(dir: string, name: string): (p: string)
    ensures dir <= p && EndsWith(p, "/" + name)
    ensures p[..|p| - |name| - 1] == dir
  {
    var p := dir + "/" + name;
    assert p[..|dir|] == dir;
    assert p[|p| - |name| - 1..] == "/" + name;
    p
  }

  /** locateLocalInternal: the file name under the save location of the
      type with no suffix. */
  function LocateLocal(writable: StandardLocation -> string,
                       relatives: map<string, seq<string>>, absolutes: map<string, seq<string>>,
                       resourceType: string, filename: string): (path: string)
    ensures EndsWith(path, "/" + filename)
    ensures path[..|path| - |filename| - 1] == SaveLocation(writable, relatives, absolutes, resourceType, "")
  {
    Under(SaveLocation(writable, relatives, absolutes, resourceType, ""), filename)
  }

  /** QString::indexOf for one character: -1 when absent. */
  function IndexOfChar(s: string, c: char): (r: int)
    ensures -1 <= r < |s|
    ensures r == -1 <==> c !in s
    ensures r >= 0 ==> s[r] == c && c !in s[..r]
    decreases |s|
  {
    if |s| == 0 then -1
    else if s[0] == c then 0
    else
      var k := IndexOfChar(s[1..], c);
      assert k >= 0 ==> s[..k + 1] == [s[0]] + s[1..][..k];
      if k == -1 then -1 else k + 1
  }

  /** QString::split on one character, keeping empty parts. */
  function Split(s: string, c: char): (parts: seq<string>)
    ensures |parts| >= 1
    decreases |s|
  {
    var i := IndexOfChar(s, c);
    if i == -1 then [s] else [s[..i]] + Split(s[i + 1..], c)
  }

  /** The inverse of Split: the parts with the separator between them. */
  function Join(parts: seq<string>, c: char): string
    requires |parts| >= 1
  {
    if |parts| == 1 then parts[0] else parts[0] + [c] + Join(parts[1..], c)
  }

  /** The filter rewrite of findAllResourcesInternal: a filter with a '*'
      after its first character is taken apart, the text before the first
      '*' joins the aliases and the filter becomes '*' followed by the
      second '*'-separated piece. */
  function SplitFilter(aliases: seq<string>, filter: string): (r: (seq<string>, string))
  {
    if IndexOfChar(filter, '*') > 0 then
      var pieces := Split(filter, '*');
      (aliases + [pieces[0]], "*" + if |pieces| > 1 then pieces[1] else "")
    else (aliases, filter)
  }

  // ---------------------------------------------------------------------
  // Properties of the registry and of the string rules

  lemma AddPathKeepsPathList(l: seq<string>, copy: string, priority: bool)
    requires PathList(l) && EndsWithSlash(copy)
    ensures PathList(AddPath(l, copy, priority))
  {
    var r := AddPath(l, copy, priority);
    if copy !in l {
      forall i, j | 0 <= i < j < |r| ensures r[i] != r[j] {
        if priority {
          if i == 0 { assert r[j] == l[j - 1]; } else { assert r[i] == l[i - 1] && r[j] == l[j - 1]; }
        } else {
          if j == |l| { assert r[i] == l[i]; } else { assert r[i] == l[i] && r[j] == l[j]; }
        }
      }
    }
  }

  /** Registering a relative name keeps every list slash-terminated and
      free of duplicates. */
  lemma AddResourceTypeKeepsWellFormed(m: map<string, seq<string>>, resourceType: string,
                                       relativename: string, priority: bool)
    requires WellFormed(m)
    ensures WellFormed(AddResourceType(m, resourceType, relativename, priority))
  {
    if relativename != [] {
      AddPathKeepsPathList(Entry(m, resourceType), WithTrailingSlash(relativename), priority);
    }
  }

  /** Registering an absolute directory keeps every list slash-terminated
      and free of duplicates. */
  lemma AddResourceDirKeepsWellFormed(m: map<string, seq<string>>, resourceType: string,
                                      absdir: string, priority: bool)
    requires WellFormed(m)
    ensures WellFormed(AddResourceDir(m, resourceType, absdir, priority))
  {
    if absdir != [] && resourceType != [] {
      AddPathKeepsPathList(Entry(m, resourceType), WithTrailingSlash(absdir), priority);
    }
  }

  /** Registering the same relative name a second time changes nothing,
      whatever the priority of the second call. */
  lemma AddResourceTypeIdempotent(m: map<string, seq<string>>, resourceType: string,
                                  relativename: string, priority: bool, priority2: bool)
    ensures var m1 := AddResourceType(m, resourceType, relativename, priority);
            AddResourceType(m1, resourceType, relativename, priority2) == m1
  {
    var m1 := AddResourceType(m, resourceType, relativename, priority);
    if relativename != [] {
      assert Entry(m1, resourceType) == m1[resourceType];
      assert m1[resourceType := m1[resourceType]] == m1;
    }
  }

  /** The same for absolute directories. */
  lemma AddResourceDirIdempotent(m: map<string, seq<string>>, resourceType: string,
                                 absdir: string, priority: bool, priority2: bool)
    ensures var m1 := AddResourceDir(m, resourceType, absdir, priority);
            AddResourceDir(m1, resourceType, absdir, priority2) == m1
  {
    var m1 := AddResourceDir(m, resourceType, absdir, priority);
    if absdir != [] && resourceType != [] {
      assert m1[resourceType := m1[resourceType]] == m1;
    }
  }

  /** A relative name registered with priority becomes the type's first
      alias, and so the directory saveLocation picks. */
  lemma PriorityRelativeIsFirstAlias(writable: StandardLocation -> string,
                                     relatives: map<string, seq<string>>, absolutes: map<string, seq<string>>,
                                     resourceType: string, relativename: string, suffix: string)
    requires relativename != []
    requires WithTrailingSlash(relativename) !in Entry(relatives, resourceType)
    ensures var rel := AddResourceType(relatives, resourceType, relativename, true);
            Aliases(rel, absolutes, resourceType)[0] == WithTrailingSlash(relativename) &&
            SaveLocation(writable, rel, absolutes, resourceType, suffix)
              == writable(MapTypeToStandardLocation(resourceType)) + "/" + WithTrailingSlash(relativename)
  {
    var rel := AddResourceType(relatives, resourceType, relativename, true);
    assert Entry(rel, resourceType) == [WithTrailingSlash(relativename)] + Entry(relatives, resourceType);
  }

  /** A relative name registered without priority goes after the type's
      other relative names and before its absolute directories. */
  lemma AppendedRelativePrecedesAbsolutes(relatives: map<string, seq<string>>, absolutes: map<string, seq<string>>,
                                          resourceType: string, relativename: string)
    requires relativename != []
    requires WithTrailingSlash(relativename) !in Entry(relatives, resourceType)
    ensures var rel := AddResourceType(relatives, resourceType, relativename, false);
            Aliases(rel, absolutes, resourceType)
              == Entry(relatives, resourceType) + [WithTrailingSlash(relativename)] + Entry(absolutes, resourceType)
  {
    var rel := AddResourceType(relatives, resourceType, relativename, false);
    assert Entry(rel, resourceType) == Entry(relatives, resourceType) + [WithTrailingSlash(relativename)];
  }

  /** An absolute directory registered with priority goes after the type's
      relative names and before its other absolute directories. */
  lemma PriorityAbsoluteFollowsRelatives(relatives: map<string, seq<string>>, absolutes: map<string, seq<string>>,
                                         resourceType: string, absdir: string)
    requires absdir != [] && resourceType != []
    requires WithTrailingSlash(absdir) !in Entry(absolutes, resourceType)
    ensures var abs := AddResourceDir(absolutes, resourceType, absdir, true);
            Aliases(relatives, abs, resourceType)
              == Entry(relatives, resourceType) + [WithTrailingSlash(absdir)] + Entry(absolutes, resourceType)
  {
    var abs := AddResourceDir(absolutes, resourceType, absdir, true);
    assert Entry(abs, resourceType) == [WithTrailingSlash(absdir)] + Entry(absolutes, resourceType);
  }

  /** An absolute directory registered without priority becomes the type's
      last alias. */
  lemma AppendedAbsoluteIsLastAlias(relatives: map<string, seq<string>>, absolutes: map<string, seq<string>>,
                                    resourceType: string, absdir: string)
    requires absdir != [] && resourceType != []
    requires WithTrailingSlash(absdir) !in Entry(absolutes, resourceType)
    ensures var abs := AddResourceDir(absolutes, resourceType, absdir, false);
            Aliases(relatives, abs, resourceType)
              == Aliases(relatives, absolutes, resourceType) + [WithTrailingSlash(absdir)]
  {
    var abs := AddResourceDir(absolutes, resourceType, absdir, false);
    assert Entry(abs, resourceType) == Entry(absolutes, resourceType) + [WithTrailingSlash(absdir)];
  }

  /** A directory already listed for the type is not registered again,
      whatever the priority. */
  lemma ListedDirectoryIgnored(m: map<string, seq<string>>, resourceType: string, absdir: string, priority: bool)
    requires WithTrailingSlash(absdir) in Entry(m, resourceType)
    ensures AddResourceDir(m, resourceType, absdir, priority) == m
  {
    if absdir != [] && resourceType != [] {
      assert m[resourceType := m[resourceType]] == m;
    }
  }

  /** The save location exactly: the writable location, '/', and the first
      alias when there is one; otherwise the writable location with
      "/krita" appended unless it already ends so, then '/' and the suffix
      when it is not empty. */
  lemma SaveLocationPath(writable: StandardLocation -> string,
                         relatives: map<string, seq<string>>, absolutes: map<string, seq<string>>,
                         resourceType: string, suffix: string)
    ensures var path := SaveLocation(writable, relatives, absolutes, resourceType, suffix);
            var aliases := Aliases(relatives, absolutes, resourceType);
            var base := writable(MapTypeToStandardLocation(resourceType));
            && (|aliases| > 0 ==> path == base + "/" + aliases[0])
            && (|aliases| == 0 ==>
                  path == (if EndsWith(base, "krita") then base else base + "/krita")
                          + (if suffix == [] then "" else "/" + suffix))
  {
  }

  /** With aliases the save location does not depend on the suffix. */
  lemma SaveLocationIgnoresSuffix(writable: StandardLocation -> string,
                                  relatives: map<string, seq<string>>, absolutes: map<string, seq<string>>,
                                  resourceType: string, suffix1: string, suffix2: string)
    requires |Aliases(relatives, absolutes, resourceType)| > 0
    ensures SaveLocation(writable, relatives, absolutes, resourceType, suffix1)
            == SaveLocation(writable, relatives, absolutes, resourceType, suffix2)
  {
  }

  /** No part of a split contains the separator. */
  lemma {:induction false} SplitPartsFree(s: string, c: char)
    ensures forall k | 0 <= k < |Split(s, c)| :: c !in Split(s, c)[k]
    decreases |s|
  {
    var i := IndexOfChar(s, c);
    if i != -1 {
      var tail := Split(s[i + 1..], c);
      SplitPartsFree(s[i + 1..], c);
      var parts := Split(s, c);
      assert parts == [s[..i]] + tail;
      forall k | 0 <= k < |parts| ensures c !in parts[k] {
        if k == 0 { assert parts[0] == s[..i]; } else { assert parts[k] == tail[k - 1]; }
      }
    }
  }

  /** Joining the parts of a split gives back the string. */
  lemma {:induction false} SplitJoin(s: string, c: char)
    ensures Join(Split(s, c), c) == s
    decreases |s|
  {
    var i := IndexOfChar(s, c);
    if i != -1 {
      SplitJoin(s[i + 1..], c);
      var parts := Split(s, c);
      assert parts[1..] == Split(s[i + 1..], c);
      assert s == s[..i] + [c] + s[i + 1..];
    }
  }

  /** The filter rewrite: a filter whose first '*' is not its first
      character gives a non-empty alias free of '*' and a filter with
      exactly one '*', at its start; any other filter is left as it is. */
  lemma SplitFilterShape(aliases: seq<string>, filter: string)
    ensures var (a, f) := SplitFilter(aliases, filter);
            (IndexOfChar(filter, '*') <= 0 ==> a == aliases && f == filter) &&
            (IndexOfChar(filter, '*') > 0 ==>
               |a| == |aliases| + 1 && a[..|aliases|] == aliases &&
               a[|aliases|] == filter[..IndexOfChar(filter, '*')] && |a[|aliases|]| > 0 &&
               '*' !in a[|aliases|] && |f| > 0 && f[0] == '*' && '*' !in f[1..])
  {
    if IndexOfChar(filter, '*') > 0 {
      SplitPartsFree(filter, '*');
      var pieces := Split(filter, '*');
      var f := "*" + if |pieces| > 1 then pieces[1] else "";
      assert f[1..] == if |pieces| > 1 then pieces[1] else "";
    }
  }

  /** A filter with a single '*', not at its start, splits into an alias
      and a filter that put together give it back. */
  lemma SplitFilterSingleStar(aliases: seq<string>, filter: string)
    requires IndexOfChar(filter, '*') > 0
    requires '*' !in filter[IndexOfChar(filter, '*') + 1..]
    ensures var (a, f) := SplitFilter(aliases, filter);
            a[|aliases|] + f == filter
  {
    var i := IndexOfChar(filter, '*');
    var rest := filter[i + 1..];
    assert IndexOfChar(rest, '*') == -1;
    assert Split(rest, '*') == [rest];
    assert Split(filter, '*') == [filter[..i]] + [rest];
    assert filter == filter[..i] + "*" + rest;
  }

  /** The registry object: KoResourcePaths::Private's two maps. */
  class ResourceRegistry {
    var relatives: map<string, seq<string>>
    var absolutes: map<string, seq<string>>

    ghost predicate Valid()
      reads this
    {
      WellFormed(relatives) && WellFormed(absolutes)
    }

    constructor()
      ensures relatives == map[] && absolutes == map[]
      ensures Valid()
    {
      relatives := map[];
      absolutes := map[];
    }

    method AddResourceTypeInternal(resourceType: string, relativename: string, priority: bool)
      requires Valid()
      modifies this
      ensures relatives == AddResourceType(old(relatives), resourceType, relativename, priority)
      ensures absolutes == old(absolutes)
      ensures Valid()
    {
      if relativename == [] {
        return;
      }
      var copy := relativename;
      if !EndsWith(copy, "/") {
        copy := copy + "/";
      }
      assert copy == WithTrailingSlash(relativename);
      var rels := if resourceType in relatives then relatives[resourceType] else [];
      assert rels == Entry(relatives, resourceType);
      if copy !in rels {
        if priority {
          rels := [copy] + rels;
        } else {
          rels := rels + [copy];
        }
      }
      assert rels == AddPath(Entry(relatives, resourceType), copy, priority);
      relatives := relatives[resourceType := rels];
      AddResourceTypeKeepsWellFormed(old(relatives), resourceType, relativename, priority);
    }

    method AddResourceDirInternal(resourceType: string, absdir: string, priority: bool)
      requires Valid()
      modifies this
      ensures absolutes == AddResourceDir(old(absolutes), resourceType, absdir, priority)
      ensures relatives == old(relatives)
      ensures Valid()
    {
      if absdir == [] || resourceType == [] {
        return;
      }
      var copy := absdir;
      if copy[|copy| - 1] != '/' {
        copy := copy + "/";
      }
      assert copy == WithTrailingSlash(absdir);
      var paths := if resourceType in absolutes then absolutes[resourceType] else [];
      assert paths == Entry(absolutes, resourceType);
      if copy !in paths {
        if priority {
          paths := [copy] + paths;
        } else {
          paths := paths + [copy];
        }
      }
      assert paths == AddPath(Entry(absolutes, resourceType), copy, priority);
      absolutes := absolutes[resourceType := paths];
      AddResourceDirKeepsWellFormed(old(absolutes), resourceType, absdir, priority);
    }

  }
}

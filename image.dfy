/** core/image.go: whether the registry has a model, and the listing of the
    local model store, which turns every manifest file under the manifests
    directory into a `model:tag` name and keeps the ones the registry resolves. */
module Image {
  import opened Wrappers
  import opened GoStrings
  import opened Collaborators
  import opened Util

  /** HasModel: present when the registry resolves the name, absent when it
      reports a not-exist error, and any other registry error is passed on. */
  function HasModel(env: Env, name: string): (r: Result<bool, Error>)
    ensures r == Ok(true) <==> env.getModel(name).Ok?
    ensures r == Ok(false) <==> env.getModel(name).Err? && Is(env.getModel(name).error, ErrNotExist)
    ensures r.Err? <==> env.getModel(name).Err? && !Is(env.getModel(name).error, ErrNotExist)
    ensures r.Err? ==> r.error == env.getModel(name).error
  {
    match env.getModel(name)
    case Ok(_) => Ok(true)
    case Err(e) => if Is(e, ErrNotExist) then Ok(false) else Err(e)
  }

  /** HasModel and load consult the same registry: a model is present exactly
      when load gets far enough to build a wrapper, and otherwise load fails with
      the very error that HasModel classified. */
  lemma HasModelAgreesWithLoad(env: Env, name: string)
    ensures HasModel(env, name) == Ok(true) <==> Load(env, name).wrapper.Some?
    ensures HasModel(env, name) != Ok(true) ==>
      && Load(env, name).err.Some?
      && (HasModel(env, name) == Ok(false) <==> Is(Load(env, name).err.value, ErrNotExist))
  {
  }

  /** The model part of a manifest's directory: the manifests prefix removed and
      separators trimmed from both ends. */
  function ModelDir(manifests: string, sep: char, dir: string): (r: string)
    ensures r == [] || (r[0] != sep && r[|r| - 1] != sep)
  {
    Trim(TrimPrefix(dir, manifests), sep)
  }

  /** The canonical name walkFunc computes for a manifest file: model part,
      colon, file name, with every separator turned into '/'. */
  function CanonicalName(manifests: string, sep: char, path: string): string {
    var parts := SplitPath(path, sep);
    ReplaceAll(Join([ModelDir(manifests, sep, parts.dir), parts.file], ":"), sep, '/')
  }

  /** Where the separator is not '/' itself, no separator is left in a
      canonical name. */
  lemma CanonicalNameHasNoSeparator(manifests: string, sep: char, path: string)
    requires sep != '/'
    ensures sep !in CanonicalName(manifests, sep, path)
  {
    var parts := SplitPath(path, sep);
    ReplaceAllRemoves(Join([ModelDir(manifests, sep, parts.dir), parts.file], ":"), sep, '/');
  }

  /** `sep + d1 + sep + ... + sep + dk`: directories below the manifests root. */
  function Components(dirs: seq<string>, sep: char): string
    decreases |dirs|
  {
    if dirs == [] then [] else Components(dirs[..|dirs| - 1], sep) + [sep] + dirs[|dirs| - 1]
  }

  /** The path of the manifest for tag `tag` in directories `dirs`. */
  function ManifestFile(manifests: string, sep: char, dirs: seq<string>, tag: string): string {
    manifests + Components(dirs, sep) + [sep] + tag
  }

  /** Directory names that are non-empty and hold no separator. */
  predicate PlainNames(dirs: seq<string>, sep: char) {
    forall k :: 0 <= k < |dirs| ==> dirs[k] != [] && sep !in dirs[k]
  }

  lemma {:induction false} ComponentsAreJoined(dirs: seq<string>, sep: char)
    requires dirs != []
    ensures Components(dirs, sep) == [sep] + Join(dirs, [sep])
    decreases |dirs|
  {
    if |dirs| > 1 {
      ComponentsAreJoined(dirs[..|dirs| - 1], sep);
    }
  }

  lemma {:induction false} JoinedEnds(dirs: seq<string>, sep: char)
    requires dirs != [] && PlainNames(dirs, sep)
    ensures var j := Join(dirs, [sep]); j != [] && j[0] != sep && j[|j| - 1] != sep
    decreases |dirs|
  {
    assert dirs[0] != [] && sep !in dirs[0];
    assert dirs[|dirs| - 1] != [] && sep !in dirs[|dirs| - 1];
    if |dirs| > 1 {
      JoinedEnds(dirs[..|dirs| - 1], sep);
      assert Join(dirs[..|dirs| - 1], [sep])[0] == Join(dirs, [sep])[0];
    }
  }

  lemma {:induction false} ReplaceJoinedSeparators(dirs: seq<string>, sep: char)
    requires PlainNames(dirs, sep)
    ensures ReplaceAll(Join(dirs, [sep]), sep, '/') == Join(dirs, "/")
    decreases |dirs|
  {
    if |dirs| == 1 {
      ReplaceAllAbsent(dirs[0], sep, '/');
    } else if |dirs| > 1 {
      var init, last := dirs[..|dirs| - 1], dirs[|dirs| - 1];
      assert PlainNames(init, sep);
      ReplaceJoinedSeparators(init, sep);
      ReplaceAllConcat(Join(init, [sep]) + [sep], last, sep, '/');
      ReplaceAllConcat(Join(init, [sep]), [sep], sep, '/');
      ReplaceAllAbsent(last, sep, '/');
    }
  }

  /** Splitting a manifest path gives its directory with the trailing separator,
      and the tag. */
  lemma SplitManifestFile(manifests: string, sep: char, dirs: seq<string>, tag: string)
    requires sep !in tag
    ensures SplitPath(ManifestFile(manifests, sep, dirs, tag), sep)
      == PathParts(manifests + Components(dirs, sep) + [sep], tag)
  {
    var path := ManifestFile(manifests, sep, dirs, tag);
    var at := |path| - |tag| - 1;
    assert path[at] == sep;
    assert forall j :: at < j < |path| ==> path[j] == tag[j - at - 1];
    assert LastIndex(path, sep) == at;
    assert path[..at + 1] == manifests + Components(dirs, sep) + [sep];
    assert path[at + 1..] == tag;
  }

  /** Trimming the separators around `sep + d1 + ... + sep + dk + sep`
      leaves the directories joined by single separators. */
  lemma TrimComponents(dirs: seq<string>, sep: char)
    requires PlainNames(dirs, sep)
    ensures Trim(Components(dirs, sep) + [sep], sep) == Join(dirs, [sep])
  {
    var s := Components(dirs, sep) + [sep];
    var l := TrimLeft(s, sep);
    if dirs == [] {
      assert s == [sep];
      assert l == [];
    } else {
      ComponentsAreJoined(dirs, sep);
      JoinedEnds(dirs, sep);
      var j := Join(dirs, [sep]);
      assert s == [sep] + j + [sep];
      assert s[1..] == j + [sep] && s[1..][0] == j[0];
      assert TrimLeft(s[1..], sep) == s[1..];
      assert l == j + [sep];
      assert l[..|l| - 1] == j;
      assert TrimRight(j, sep) == j;
      assert TrimRight(l, sep) == j;
    }
  }

  /** For the manifest of `d1/.../dk` with tag `tag`, the listed name is
      `d1/.../dk:tag`. */
  lemma CanonicalNameOfManifestFile(manifests: string, sep: char, dirs: seq<string>, tag: string)
    requires sep != ':'
    requires PlainNames(dirs, sep) && sep !in tag
    ensures CanonicalName(manifests, sep, ManifestFile(manifests, sep, dirs, tag)) == Join(dirs, "/") + ":" + tag
  {
    SplitManifestFile(manifests, sep, dirs, tag);
    var dir := manifests + Components(dirs, sep) + [sep];
    assert TrimPrefix(dir, manifests) == Components(dirs, sep) + [sep];
    TrimComponents(dirs, sep);
    var j := Join(dirs, [sep]);
    assert Join([j, tag], ":") == j + ":" + tag;
    ReplaceAllConcat(j + ":", tag, sep, '/');
    ReplaceAllConcat(j, ":", sep, '/');
    ReplaceAllAbsent(":", sep, '/');
    ReplaceAllAbsent(tag, sep, '/');
    ReplaceJoinedSeparators(dirs, sep);
  }

  /** Replacing separators in `m + ":" + f` touches only `m` when neither the
      colon nor `f` holds a separator. */
  lemma ReplaceJoinedColon(m: string, f: string, sep: char)
    requires sep != ':' && sep !in f
    ensures ReplaceAll(m + ":" + f, sep, '/') == ReplaceAll(m, sep, '/') + ":" + f
  {
    ReplaceAllConcat(m + ":", f, sep, '/');
    ReplaceAllConcat(m, ":", sep, '/');
    ReplaceAllAbsent(":", sep, '/');
    ReplaceAllAbsent(f, sep, '/');
  }

  /** In `ReplaceAll(m + ":" + f)`, with no colon and no separator in `f`, the
      last colon is the one that was joined in, and `f` follows it unchanged. */
  lemma LastColonBeforeFile(m: string, f: string, sep: char)
    requires sep != ':' && ':' !in f && sep !in f
    ensures var name := ReplaceAll(m + ":" + f, sep, '/');
      LastIndex(name, ':') == |m| && name[|m| + 1..] == f
  {
    ReplaceJoinedColon(m, f, sep);
    var x := ReplaceAll(m, sep, '/');
    assert x + ":" + f == x + [':'] + f;
    LastIndexBeforeTail(x, ':', f);
    assert (x + [':'] + f)[|x| + 1..] == f;
  }

  /** Whatever the path, when the file name has no colon the text after the
      last colon of the listed name is the file name: the tag. */
  lemma TagFollowsLastColon(manifests: string, sep: char, path: string)
    requires sep != ':'
    requires ':' !in SplitPath(path, sep).file
    ensures var name := CanonicalName(manifests, sep, path);
      var k := LastIndex(name, ':');
      0 <= k && name[k + 1..] == SplitPath(path, sep).file
  {
    var parts := SplitPath(path, sep);
    var m := ModelDir(manifests, sep, parts.dir);
    assert Join([m, parts.file], ":") == m + ":" + parts.file;
    assert CanonicalName(manifests, sep, path) == ReplaceAll(m + ":" + parts.file, sep, '/');
    LastColonBeforeFile(m, parts.file, sep);
  }

  /** One entry filepath.Walk reports: its path and whether it is a directory. */
  datatype WalkEntry = WalkEntry(path: string, isDir: bool)

  /** The registry's answer for the name walkFunc derives from each entry. */
  function Lookup(env: Env, manifests: string, sep: char): WalkEntry -> Result<Model, Error> {
    (entry: WalkEntry) => env.getModel(CanonicalName(manifests, sep, entry.path))
  }

  /** The models walkFunc has collected after the entries `walk`, in walk order:
      each file entry that `lookup` resolves adds its model. */
  function Listed(lookup: WalkEntry -> Result<Model, Error>, walk: seq<WalkEntry>): seq<Model>
    decreases |walk|
  {
    if walk == [] then []
    else
      var last := walk[|walk| - 1];
      var before := Listed(lookup, walk[..|walk| - 1]);
      if !last.isDir && lookup(last).Ok? then before + [lookup(last).value] else before
  }

  /** Listing a walk in two parts gives the first part's models, then the
      second's: the listing keeps walk order. */
  lemma {:induction false} ListedAppend(lookup: WalkEntry -> Result<Model, Error>, a: seq<WalkEntry>, b: seq<WalkEntry>)
    ensures Listed(lookup, a + b) == Listed(lookup, a) + Listed(lookup, b)
    decreases |b|
  {
    if b != [] {
      var init := b[..|b| - 1];
      assert (a + b)[..|a + b| - 1] == a + init;
      ListedAppend(lookup, a, init);
    } else {
      assert a + b == a;
    }
  }

  /** The walk's file entries, in order. */
  function Files(walk: seq<WalkEntry>): (r: seq<WalkEntry>)
    ensures forall i :: 0 <= i < |r| ==> !r[i].isDir
    decreases |walk|
  {
    if walk == [] then []
    else if walk[|walk| - 1].isDir then Files(walk[..|walk| - 1])
    else Files(walk[..|walk| - 1]) + [walk[|walk| - 1]]
  }

  /** Directory entries contribute nothing: listing the files alone gives the
      same models. */
  lemma {:induction false} ListedIgnoresDirectories(lookup: WalkEntry -> Result<Model, Error>, walk: seq<WalkEntry>)
    ensures Listed(lookup, walk) == Listed(lookup, Files(walk))
    decreases |walk|
  {
    if walk != [] {
      var init, last := walk[..|walk| - 1], walk[|walk| - 1];
      ListedIgnoresDirectories(lookup, init);
      if !last.isDir {
        ListedAppend(lookup, Files(init), [last]);
        assert [last][..0] == [];
      }
    }
  }

  /** A model is listed exactly when some file entry of the walk resolves to it. */
  lemma {:induction false} ListedMembership(lookup: WalkEntry -> Result<Model, Error>, walk: seq<WalkEntry>, m: Model)
    ensures m in Listed(lookup, walk) <==>
      exists i :: 0 <= i < |walk| && !walk[i].isDir && lookup(walk[i]) == Ok(m)
    decreases |walk|
  {
    if walk != [] {
      var init := walk[..|walk| - 1];
      ListedMembership(lookup, init, m);
      if exists i :: 0 <= i < |init| && !init[i].isDir && lookup(init[i]) == Ok(m) {
        var i :| 0 <= i < |init| && !init[i].isDir && lookup(init[i]) == Ok(m);
        assert walk[i] == init[i];
      }
      if exists i :: 0 <= i < |walk| && !walk[i].isDir && lookup(walk[i]) == Ok(m) {
        var i :| 0 <= i < |walk| && !walk[i].isDir && lookup(walk[i]) == Ok(m);
        if i < |init| { assert init[i] == walk[i]; }
      }
    }
  }

  /** No more models are listed than the walk has file entries. */
  lemma {:induction false} ListedBounded(lookup: WalkEntry -> Result<Model, Error>, walk: seq<WalkEntry>)
    ensures |Listed(lookup, walk)| <= |Files(walk)|
    decreases |walk|
  {
    if walk != [] {
      ListedBounded(lookup, walk[..|walk| - 1]);
    }
  }

  /** ListModel: fails only when the manifests directory cannot be determined;
      otherwise walks the entries, appending the model of every file entry whose
      canonical name the registry resolves. */
  method ListModel(env: Env, manifestsPath: Result<string, Error>, sep: char, walk: seq<WalkEntry>)
    returns (r: Result<seq<Model>, Error>)
    ensures manifestsPath.Err? ==> r == Err(manifestsPath.error)
    ensures manifestsPath.Ok? ==> r == Ok(Listed(Lookup(env, manifestsPath.value, sep), walk))
  {
    if manifestsPath.Err? {
      return Err(manifestsPath.error);
    }
    var manifests := manifestsPath.value;
    var models: seq<Model> := [];
    var i := 0;
    while i < |walk|
      invariant 0 <= i <= |walk|
      invariant models == Listed(Lookup(env, manifests, sep), walk[..i])
    {
      var entry := walk[i];
      if !entry.isDir {
        var m := env.getModel(CanonicalName(manifests, sep, entry.path));
        if m.Ok? {
          models := models + [m.value];
        }
      }
      assert walk[..i + 1][..i] == walk[..i];
      i := i + 1;
    }
    assert walk[..|walk|] == walk;
    return Ok(models);
  }
}

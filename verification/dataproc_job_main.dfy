/** The pure parts of the Dataproc driver's entry point `DataprocJobMain`: the check on
    the job arguments, the archive-extension dispatch of `unpack`, and the order of the
    URLs the new job classloader is given. The file system is replaced by its answers:
    a directory listing is a sequence of file names, or absent when `listFiles()`
    returns null. */
module DataprocJobMain {
  import opened Wrappers

  datatype LaunchError =
    | MissingJobArguments                    // RuntimeException from main
    | UnsupportedCompression(extension: string) // IllegalArgumentException from unpack

  /** The two job arguments `main` reads. */
  datatype JobArgs = JobArgs(runtimeJobClassName: string, sparkCompat: string)

  /** A classpath entry: the URL of a file or directory, identified by its path. */
  datatype Url = Url(path: string)

  /** What `listFiles()` returns for a directory path; a missing path stands for null. */
  type Listings = map<string, seq<string>>

  /** `main`'s argument check: at least two arguments, the job class name and the Spark compat. */
  function ParseArgs(args: seq<string>): (r: Result<JobArgs, LaunchError>)
    ensures r.Err? <==> |args| < 2
    ensures r.Err? ==> r.error == MissingJobArguments
    ensures r.Ok? ==> r.value.runtimeJobClassName == args[0] && r.value.sparkCompat == args[1]
  {
    if |args| < 2 then Err(MissingJobArguments) else Ok(JobArgs(args[0], args[1]))
  }

  // ----- file extensions -----

  /** `String.lastIndexOf(c)`: the last position holding `c`, or -1. */
  function LastIndexOf(s: string, c: char): (i: int)
    ensures -1 <= i < |s|
    ensures i >= 0 ==> s[i] == c
    ensures forall j :: i < j < |s| ==> s[j] != c
    decreases |s|
  {
    if s == [] then -1
    else if s[|s| - 1] == c then |s| - 1
    else LastIndexOf(s[..|s| - 1], c)
  }

  /** `getFileExtension`: the text after the last '.', or the whole name if it has none. */
  function FileExtension(name: string): (ext: string)
    ensures '.' !in ext
    ensures '.' !in name ==> ext == name
    ensures '.' in name ==> |ext| < |name| && name == name[..|name| - |ext| - 1] + "." + ext
  {
    name[LastIndexOf(name, '.') + 1..]
  }

  /** `unpack`'s dispatch on the extension: only "zip" and "jar", exactly as spelled, go
      on to be extracted. */
  function UnpackDispatch(archiveFileName: string): (r: Outcome<LaunchError>)
    ensures r.Pass? <==> FileExtension(archiveFileName) == "zip" || FileExtension(archiveFileName) == "jar"
    ensures r.Fail? ==> r.error == UnsupportedCompression(FileExtension(archiveFileName))
  {
    var extension := FileExtension(archiveFileName);
    if extension == "zip" || extension == "jar" then Pass else Fail(UnsupportedCompression(extension))
  }

  // ----- the launcher classpath -----

  /** `new File(dir, child)`. */
  function Child(dir: string, child: string): string {
    dir + "/" + child
  }

  predicate EndsWith(s: string, suffix: string) {
    |suffix| <= |s| && s[|s| - |suffix|..] == suffix
  }

  /** The URLs of the ".jar" files among `names`, in listing order. */
  function JarEntries(dir: string, names: seq<string>): seq<Url>
    decreases |names|
  {
    if names == [] then []
    else
      var last := names[|names| - 1];
      JarEntries(dir, names[..|names| - 1]) + (if EndsWith(last, ".jar") then [Url(Child(dir, last))] else [])
  }

  /** What `addJarURLs(dir, result)` appends: nothing when the listing is null. */
  function JarUrls(dir: string, listings: Listings): seq<Url> {
    if dir in listings then JarEntries(dir, listings[dir]) else []
  }

  /** What `createClassPathURLs(dir)` returns: the jars under `dir/lib`, then `dir/classes`. */
  function ClassPathUrls(dir: string, listings: Listings): seq<Url> {
    JarUrls(Child(dir, "lib"), listings) + [Url(Child(dir, "classes"))]
  }

  /** What one requested jar adds: its directory, and for all but the resources jar its
      classpath URLs. */
  function JarContribution(file: string, resourcesJar: string, listings: Listings): seq<Url> {
    [Url(file)] + (if file == resourcesJar then [] else ClassPathUrls(file, listings))
  }

  /** The blocks `f` gives for each element of `s`, one after the other. */
  function ConcatMap<T, U>(f: T -> seq<U>, s: seq<T>): seq<U>
    decreases |s|
  {
    if s == [] then [] else ConcatMap(f, s[..|s| - 1]) + f(s[|s| - 1])
  }

  /** The new entries `getClasspath` puts in front of the original URLs, in request order. */
  function LauncherEntries(jarFiles: seq<string>, resourcesJar: string, listings: Listings): seq<Url> {
    ConcatMap(file => JarContribution(file, resourcesJar, listings), jarFiles)
  }

  /** `addJarURLs`: appends to `result` the URL of every ".jar" file the directory lists. */
  method AddJarUrls(dir: string, listings: Listings, result: seq<Url>) returns (r: seq<Url>)
    ensures r == result + JarUrls(dir, listings)
  {
    r := result;
    if dir !in listings {
      return;
    }
    var files := listings[dir];
    for i := 0 to |files|
      invariant r == result + JarEntries(dir, files[..i])
    {
      assert files[..i + 1][..i] == files[..i];
      if EndsWith(files[i], ".jar") {
        r := r + [Url(Child(dir, files[i]))];
      }
    }
    assert files[..|files|] == files;
  }

  /** `createClassPathURLs`. */
  method CreateClassPathUrls(dir: string, listings: Listings) returns (urls: seq<Url>)
    ensures urls == ClassPathUrls(dir, listings)
  {
    urls := AddJarUrls(Child(dir, "lib"), listings, []);
    urls := urls + [Url(Child(dir, "classes"))];
  }

  /** `getClasspath`: the new entries for the requested jars, then the classloader's
      original URLs unchanged. */
  method GetClasspath(original: seq<Url>, jarFiles: seq<string>, resourcesJar: string, listings: Listings)
    returns (urls: seq<Url>)
    ensures urls == LauncherEntries(jarFiles, resourcesJar, listings) + original
    ensures |urls| == |LauncherEntries(jarFiles, resourcesJar, listings)| + |original|
    ensures urls[|urls| - |original|..] == original
  {
    var urlList: seq<Url> := [];
    for i := 0 to |jarFiles|
      invariant urlList == LauncherEntries(jarFiles[..i], resourcesJar, listings)
    {
      var file := jarFiles[i];
      assert jarFiles[..i + 1][..i] == jarFiles[..i];
      ghost var contribution := JarContribution(file, resourcesJar, listings);
      assert LauncherEntries(jarFiles[..i + 1], resourcesJar, listings) == urlList + contribution;
      urlList := urlList + [Url(file)];
      if file == resourcesJar {
        continue;
      }
      var more := CreateClassPathUrls(file, listings);
      assert contribution == [Url(file)] + more;
      urlList := urlList + more;
    }
    assert jarFiles[..|jarFiles|] == jarFiles;
    urls := urlList + original;
  }

  // ----- properties of the classpath order -----

  /** Filtering a listing respects concatenation: jars keep their listing order. */
  lemma {:induction false} JarEntriesAppend(dir: string, a: seq<string>, b: seq<string>)
    ensures JarEntries(dir, a + b) == JarEntries(dir, a) + JarEntries(dir, b)
    decreases |b|
  {
    if b == [] {
      assert a + b == a;
    } else {
      assert (a + b)[..|a + b| - 1] == a + b[..|b| - 1];
      JarEntriesAppend(dir, a, b[..|b| - 1]);
    }
  }

  /** A URL is among the jar entries exactly when a listed name ending in ".jar" gives it. */
  lemma {:induction false} JarEntriesMembers(dir: string, names: seq<string>)
    ensures |JarEntries(dir, names)| <= |names|
    ensures forall u :: u in JarEntries(dir, names) <==>
      exists n :: n in names && EndsWith(n, ".jar") && u == Url(Child(dir, n))
    decreases |names|
  {
    if names != [] {
      var init := names[..|names| - 1];
      JarEntriesMembers(dir, init);
      assert names == init + [names[|names| - 1]];
    }
  }

  /** Concatenating blocks respects concatenation of the elements they come from. */
  lemma {:induction false} ConcatMapAppend<T, U>(f: T -> seq<U>, a: seq<T>, b: seq<T>)
    ensures ConcatMap(f, a + b) == ConcatMap(f, a) + ConcatMap(f, b)
    decreases |b|
  {
    if b == [] {
      assert a + b == a;
    } else {
      var b' := b[..|b| - 1];
      assert (a + b)[..|a + b| - 1] == a + b';
      assert (a + b)[|a + b| - 1] == b[|b| - 1];
      ConcatMapAppend(f, a, b');
    }
  }

  /** The new entries for `a + b` are those for `a` followed by those for `b`: each jar's
      contribution appears in request order. */
  lemma LauncherEntriesAppend(a: seq<string>, b: seq<string>, resourcesJar: string, listings: Listings)
    ensures LauncherEntries(a + b, resourcesJar, listings) ==
      LauncherEntries(a, resourcesJar, listings) + LauncherEntries(b, resourcesJar, listings)
  {
    ConcatMapAppend(file => JarContribution(file, resourcesJar, listings), a, b);
  }

  /** The `i`-th requested jar's block sits between the blocks of the jars before and after
      it: first its directory URL, then (unless it is the resources jar) its `lib` jars and
      its `classes` directory. */
  lemma LauncherEntriesAt(jarFiles: seq<string>, i: int, resourcesJar: string, listings: Listings)
    requires 0 <= i < |jarFiles|
    ensures var file := jarFiles[i];
      && LauncherEntries(jarFiles, resourcesJar, listings) ==
           LauncherEntries(jarFiles[..i], resourcesJar, listings)
           + [Url(file)]
           + (if file == resourcesJar then []
              else JarUrls(Child(file, "lib"), listings) + [Url(Child(file, "classes"))])
           + LauncherEntries(jarFiles[i + 1..], resourcesJar, listings)
  {
    var file := jarFiles[i];
    assert jarFiles == jarFiles[..i] + [file] + jarFiles[i + 1..];
    LauncherEntriesAppend(jarFiles[..i] + [file], jarFiles[i + 1..], resourcesJar, listings);
    LauncherEntriesAppend(jarFiles[..i], [file], resourcesJar, listings);
    assert LauncherEntries([file], resourcesJar, listings) == JarContribution(file, resourcesJar, listings) by {
      assert [file][..0] == [];
    }
  }

  /** Every requested jar's directory is on the classpath, and there is at least one new
      entry per requested jar. */
  lemma {:induction false} LauncherEntriesCover(jarFiles: seq<string>, resourcesJar: string, listings: Listings)
    ensures |LauncherEntries(jarFiles, resourcesJar, listings)| >= |jarFiles|
    ensures forall f :: f in jarFiles ==> Url(f) in LauncherEntries(jarFiles, resourcesJar, listings)
    decreases |jarFiles|
  {
    if jarFiles != [] {
      var init := jarFiles[..|jarFiles| - 1];
      LauncherEntriesCover(init, resourcesJar, listings);
      assert jarFiles == init + [jarFiles[|jarFiles| - 1]];
    }
  }
}

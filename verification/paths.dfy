/** The static helpers `BuddyVerified::dir`, `BuddyVerified::url` and
    `BuddyVerified::include_file`. Each of `dir` and `url` keeps its base in a
    function-level `static` variable; the model threads that variable through
    the calls as `cache` ("" standing for its initial null). What the host
    returns for `dirname(__FILE__)` and `plugin_dir_url(__FILE__)` is a
    parameter, and so is the set of files that exist on disk. */
module Paths {
  import opened PhpStrings

  /** The new value of a static base variable and the string returned. */
  datatype Cached = Cached(cache: string, value: string)

  /** A static base variable as it can be observed: unset, or a base that
      `trailingslashit` produced. */
  predicate ValidCache(cache: string) {
    cache == "" || (|cache| > 0 && cache[|cache| - 1] == '/')
  }

  /** The shared shape of `dir` and `url`: a truthy stored base is kept,
      a falsy one is replaced by the slash-terminated form of what the host
      computes, and the path is appended to the base. */
  function CachedBase(cache: string, computed: string, path: string): (r: Cached)
    ensures Truthy(cache) ==> r.cache == cache
    ensures !Truthy(cache) ==> r.cache == TrailingSlashIt(computed)
    ensures Truthy(r.cache)
    ensures ValidCache(cache) ==> ValidCache(r.cache) && r.cache[|r.cache| - 1] == '/'
    ensures r.value == r.cache + path
  {
    var base := if Truthy(cache) then cache else TrailingSlashIt(computed);
    Cached(base, base + path)
  }

  /** `dir($path)`: the plugin directory, with a trailing slash, followed by
      `path`. `fileDir` is what `dirname(__FILE__)` returns. */
  function Dir(cache: string, fileDir: string, path: string): (r: Cached)
    ensures Truthy(cache) ==> r.cache == cache
    ensures !Truthy(cache) ==> r.cache == TrailingSlashIt(fileDir)
    ensures ValidCache(cache) ==> r.cache[|r.cache| - 1] == '/'
    ensures r.value == r.cache + path
  {
    CachedBase(cache, fileDir, path)
  }

  /** `url($path)`: the plugin URL, with a trailing slash, followed by
      `path`. `pluginDirUrl` is what `plugin_dir_url(__FILE__)` returns. */
  function Url(cache: string, pluginDirUrl: string, path: string): (r: Cached)
    ensures Truthy(cache) ==> r.cache == cache
    ensures !Truthy(cache) ==> r.cache == TrailingSlashIt(pluginDirUrl)
    ensures ValidCache(cache) ==> r.cache[|r.cache| - 1] == '/'
    ensures r.value == r.cache + path
  {
    CachedBase(cache, pluginDirUrl, path)
  }

  /** `dir(p) == dir("") . p`, and the cached directory never changes. */
  lemma DirAppendsAndReuses(cache: string, fileDir: string, path: string, fileDir': string, path': string)
    ensures Dir(cache, fileDir, path).value == Dir(cache, fileDir, "").value + path
    ensures Dir(Dir(cache, fileDir, path).cache, fileDir', path').cache == Dir(cache, fileDir, path).cache
    ensures Dir(Dir(cache, fileDir, path).cache, fileDir', path').value == Dir(cache, fileDir, "").value + path'
  {
  }

  /** `url(p) == url("") . p`, and the cached URL never changes. */
  lemma UrlAppendsAndReuses(cache: string, pluginDirUrl: string, path: string, pluginDirUrl': string, path': string)
    ensures Url(cache, pluginDirUrl, path).value == Url(cache, pluginDirUrl, "").value + path
    ensures Url(Url(cache, pluginDirUrl, path).cache, pluginDirUrl', path').cache == Url(cache, pluginDirUrl, path).cache
    ensures Url(Url(cache, pluginDirUrl, path).cache, pluginDirUrl', path').value == Url(cache, pluginDirUrl, "").value + path'
  {
  }

  /** WordPress's `plugin_dir_url` already answers with a trailing slash;
      passing such an answer through `trailingslashit` again, as `url` does,
      gives the same URLs as passing the raw directory URL once. */
  lemma UrlOfSlashedBase(cache: string, dirUrl: string, path: string)
    ensures Url(cache, TrailingSlashIt(dirUrl), path) == Url(cache, dirUrl, path)
  {
  }

  /** The path, relative to the plugin directory, of the file holding the
      class whose file name is `filename`. */
  function IncludeRelPath(filename: string): string {
    "includes/class-" + filename + ".php"
  }

  /** The outcome of `include_file`: the new `dir` base, the path it looked
      at, and whether that file existed and was included. */
  datatype IncludeStep = IncludeStep(dirCache: string, path: string, included: bool)

  /** `include_file($filename)`: includes `<dir>/includes/class-<filename>.php`
      when that file exists, and returns false otherwise. */
  function IncludeFile(dirCache: string, fileDir: string, filename: string, files: set<string>): (r: IncludeStep)
    ensures r.dirCache == Dir(dirCache, fileDir, "").cache
    ensures r.path == Dir(dirCache, fileDir, "").value + IncludeRelPath(filename)
    ensures r.included <==> r.path in files
  {
    var d := Dir(dirCache, fileDir, IncludeRelPath(filename));
    IncludeStep(d.cache, d.value, d.value in files)
  }

  /** Different file names never share an include path: the name can be
      read back from the path. */
  lemma IncludePathInjective(dirCache: string, fileDir: string, a: string, b: string, files: set<string>)
    requires IncludeFile(dirCache, fileDir, a, files).path == IncludeFile(dirCache, fileDir, b, files).path
    ensures a == b
  {
    var base := Dir(dirCache, fileDir, "").value + "includes/class-";
    var pa := IncludeFile(dirCache, fileDir, a, files).path;
    assert pa == base + a + ".php";
    assert pa == base + b + ".php";
    assert |a| == |b|;
    assert a == pa[|base|..|base| + |a|];
    assert b == pa[|base|..|base| + |b|];
  }
}

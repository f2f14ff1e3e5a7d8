/** `buddyverified_autoload_classes`: the class autoloader. A class whose name
    starts with `BV_` lives in `includes/class-<name>.php`, where `<name>` is
    the rest of the class name with `_` turned into `-` and lower-cased. */
module Autoloader {
  import opened Wrappers
  import opened PhpStrings
  import opened Paths

  /** The prefix every plugin class name carries. */
  const ClassPrefix: string := "BV_"

  /** What one character of a class name becomes in its file name. */
  function FileChar(c: char): (r: char)
    ensures r != '_' && !IsUpperAscii(r)
    ensures c == '_' ==> r == '-'
    ensures c != '_' ==> r == LowerChar(c)
    ensures c != '_' && !IsUpperAscii(c) ==> r == c
  {
    LowerChar(if c == '_' then '-' else c)
  }

  /** A string the autoloader can produce as a file name: no underscore and
      no upper-case ASCII letter. */
  predicate IsFileName(s: string) {
    '_' !in s && NoUpper(s)
  }

  /** The file name for `className`, or `None` when the autoloader ignores
      the class because `strpos($class_name, 'BV_')` is not 0. */
  function ClassFileName(className: string): (r: Option<string>)
    ensures r.Some? <==> ClassPrefix <= className
    ensures r.Some? ==> |r.value| == |className| - |ClassPrefix|
    ensures r.Some? ==> IsFileName(r.value)
    ensures r.Some? ==> forall i :: 0 <= i < |r.value| ==> r.value[i] == FileChar(className[|ClassPrefix| + i])
  {
    StrPosZeroIsPrefix(className, ClassPrefix);
    if StrPos(className, ClassPrefix) != Some(0) then
      None
    else
      var f := StrToLower(StrReplaceChar(className[|ClassPrefix|..], '_', '-'));
      assert '_' !in f by {
        forall i | 0 <= i < |f| ensures f[i] != '_' {
          assert f[i] == LowerChar(if className[|ClassPrefix| + i] == '_' then '-' else className[|ClassPrefix| + i]);
        }
      }
      Some(f)
  }

  /** Lower-casing and replacing underscores commute, so the order the
      autoloader applies them in does not matter. */
  lemma ReplaceThenLowerCommutes(s: string)
    ensures StrToLower(StrReplaceChar(s, '_', '-')) == StrReplaceChar(StrToLower(s), '_', '-')
  {
  }

  /** Round trip: every file name the autoloader can produce is produced for
      exactly the class `BV_` followed by that name. */
  lemma FileNameRoundTrip(f: string)
    requires IsFileName(f)
    ensures ClassFileName(ClassPrefix + f) == Some(f)
  {
    var c := ClassPrefix + f;
    assert ClassPrefix <= c;
    var r := ClassFileName(c).value;
    assert |r| == |f|;
    forall i | 0 <= i < |f| ensures r[i] == f[i] {
      assert c[|ClassPrefix| + i] == f[i];
      assert !IsUpperAscii(f[i]);
    }
    assert r == f;
  }

  /** The mapping is idempotent: a produced file name, prefixed again, maps
      to itself. */
  lemma ClassFileNameIdempotent(className: string)
    requires ClassFileName(className).Some?
    ensures ClassFileName(ClassPrefix + ClassFileName(className).value) == ClassFileName(className)
  {
    FileNameRoundTrip(ClassFileName(className).value);
  }

  /** Two suffixes whose characters map to the same file characters give the
      same file name. */
  lemma SameFileName(s: string, t: string)
    requires |s| == |t|
    requires forall i :: 0 <= i < |s| ==> FileChar(s[i]) == FileChar(t[i])
    ensures ClassFileName(ClassPrefix + s) == ClassFileName(ClassPrefix + t)
  {
    var cs, ct := ClassPrefix + s, ClassPrefix + t;
    assert ClassPrefix <= cs && ClassPrefix <= ct;
    var a, b := ClassFileName(cs).value, ClassFileName(ct).value;
    forall i | 0 <= i < |a| ensures a[i] == b[i] {
      assert a[i] == FileChar(cs[|ClassPrefix| + i]) && cs[|ClassPrefix| + i] == s[i];
      assert b[i] == FileChar(ct[|ClassPrefix| + i]) && ct[|ClassPrefix| + i] == t[i];
    }
    assert a == b;
  }

  /** The suffix after the prefix is matched case-insensitively and with `_`
      and `-` treated alike. */
  lemma SuffixCaseInsensitive(suffix: string)
    ensures ClassFileName(ClassPrefix + suffix) == ClassFileName(ClassPrefix + StrToLower(suffix))
    ensures ClassFileName(ClassPrefix + suffix) == ClassFileName(ClassPrefix + StrReplaceChar(suffix, '_', '-'))
  {
    SameFileName(suffix, StrToLower(suffix));
    SameFileName(suffix, StrReplaceChar(suffix, '_', '-'));
  }

  /** The prefix itself is case-sensitive: a lower-case `bv_` is not
      recognised. */
  lemma LowerCasePrefixIgnored(suffix: string)
    ensures ClassFileName("bv_" + suffix) == None
  {
  }

  /** What one autoloader call did: the new `dir` base, and the include
      attempt it made, if any. */
  datatype AutoloadStep = AutoloadStep(dirCache: string, attempt: Option<IncludeStep>)

  /** `buddyverified_autoload_classes($class_name)`. Classes without the
      prefix are ignored without touching the `dir` base; the others go to
      `include_file` with their file name. */
  function Autoload(className: string, dirCache: string, fileDir: string, files: set<string>): (r: AutoloadStep)
    ensures r.attempt.None? <==> !(ClassPrefix <= className)
    ensures r.attempt.None? ==> r.dirCache == dirCache
    ensures r.attempt.Some? ==>
              && r.dirCache == Dir(dirCache, fileDir, "").cache
              && r.attempt.value.path == Dir(dirCache, fileDir, "").value + IncludeRelPath(ClassFileName(className).value)
              && (r.attempt.value.included <==> r.attempt.value.path in files)
  {
    match ClassFileName(className)
    case None => AutoloadStep(dirCache, None)
    case Some(filename) =>
      var step := IncludeFile(dirCache, fileDir, filename, files);
      AutoloadStep(step.dirCache, Some(step))
  }

  /** The include path of a `BV_` class ends in `includes/class-<f>.php` with
      `<f>` of the same length as the name without its prefix and free of
      `_` and upper-case letters; an attempted path always starts with the
      directory base. */
  lemma AutoloadPathShape(className: string, dirCache: string, fileDir: string, files: set<string>)
    requires ClassPrefix <= className
    requires ValidCache(dirCache)
    ensures var r := Autoload(className, dirCache, fileDir, files);
            var base := Dir(dirCache, fileDir, "").value;
            && r.attempt.Some?
            && base[|base| - 1] == '/'
            && exists f :: && IsFileName(f) && |f| == |className| - 3
                           && r.attempt.value.path == base + IncludeRelPath(f)
  {
  }

  /** The component classes of the plugin map to `admin` and `functions`. */
  lemma ComponentFileNames()
    ensures ClassFileName("BV_Admin") == Some("admin")
    ensures ClassFileName("BV_Functions") == Some("functions")
  {
    assert ClassFileName("BV_Admin") == Some("admin") by {
      assert ClassPrefix <= "BV_Admin";
      var a := ClassFileName("BV_Admin").value;
      assert a == [FileChar('A'), FileChar('d'), FileChar('m'), FileChar('i'), FileChar('n')];
    }
    assert ClassFileName("BV_Functions") == Some("functions") by {
      assert ClassPrefix <= "BV_Functions";
      var f := ClassFileName("BV_Functions").value;
      assert f == [FileChar('F'), FileChar('u'), FileChar('n'), FileChar('c'), FileChar('t'),
                   FileChar('i'), FileChar('o'), FileChar('n'), FileChar('s')];
    }
  }

  /** PHP's class-loading state as the autoloader sees it: the classes
      already defined, the `dir` base, and (fixed) what `dirname(__FILE__)`
      returns and which files exist. PHP class names are case-insensitive,
      so `loaded` holds each defined class under its lower-cased name
      (`WellKeyed`); an entry that is not lower-case never matches a lookup.
      Including a class file is taken to define the class it is named
      after. */
  datatype Loader = Loader(loaded: set<string>, dirCache: string, fileDir: string, files: set<string>)

  /** Every entry of the class table is a lower-cased class name. */
  predicate WellKeyed(ld: Loader) {
    forall n :: n in ld.loaded ==> StrToLower(n) == n
  }

  /** Class `name` is defined, under any letter case. */
  predicate Defined(name: string, ld: Loader) {
    StrToLower(name) in ld.loaded
  }

  /** Class `name` is already defined, or the file the autoloader includes
      for it exists. */
  predicate Available(name: string, ld: Loader) {
    || Defined(name, ld)
    || (&& ClassFileName(name).Some?
        && Dir(ld.dirCache, ld.fileDir, "").value + IncludeRelPath(ClassFileName(name).value) in ld.files)
  }

  /** PHP's error for `new` on a class no autoloader could define. */
  datatype ClassError = ClassNotFound(className: string)

  /** The loader after a class lookup, and the error if the class stayed
      undefined. */
  datatype Lookup = Lookup(loader: Loader, error: Option<ClassError>)

  /** What `new <name>` does before constructing: a defined class is used as
      is; otherwise the autoloader runs, and the class is defined afterwards
      exactly when it included the class file. */
  function RequireClass(name: string, ld: Loader): (r: Lookup)
    ensures r.error.None? <==> Available(name, ld)
    ensures r.error.Some? ==> r.error.value == ClassNotFound(name)
    ensures r.loader.loaded == if Available(name, ld) then ld.loaded + {StrToLower(name)} else ld.loaded
    ensures r.error.None? ==> Defined(name, r.loader)
    ensures r.loader.fileDir == ld.fileDir && r.loader.files == ld.files
    ensures Dir(r.loader.dirCache, ld.fileDir, "").value == Dir(ld.dirCache, ld.fileDir, "").value
    ensures !Defined(name, ld) && !(ClassPrefix <= name) ==> r.error.Some?
    ensures WellKeyed(ld) ==> WellKeyed(r.loader)
  {
    if Defined(name, ld) then
      Lookup(ld, None)
    else
      var step := Autoload(name, ld.dirCache, ld.fileDir, ld.files);
      var ld' := ld.(dirCache := step.dirCache);
      if step.attempt.Some? && step.attempt.value.included then
        Lookup(ld'.(loaded := ld.loaded + {StrToLower(name)}), None)
      else
        Lookup(ld', Some(ClassNotFound(name)))
  }

  /** A class lookup only changes the answer for the class looked up, that
      is, for names equal to it up to letter case. */
  lemma RequireClassKeepsOthers(name: string, other: string, ld: Loader)
    requires StrToLower(name) != StrToLower(other)
    ensures Available(other, RequireClass(name, ld).loader) <==> Available(other, ld)
  {
  }

  /** Once a lookup succeeds, the class is defined under every spelling
      that differs only in letter case: `new bv_admin` after `new BV_Admin`
      finds the class without running the autoloader again. */
  lemma RequireClassAnyCase(name: string, other: string, ld: Loader)
    requires StrToLower(name) == StrToLower(other)
    requires RequireClass(name, ld).error.None?
    ensures var r := RequireClass(name, ld);
            && Defined(other, r.loader)
            && RequireClass(other, r.loader) == Lookup(r.loader, None)
  {
  }
}

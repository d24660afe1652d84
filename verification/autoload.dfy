/** The class autoloader: a class name is looked up as a file in the cache
    directory when the name contains "Cache", in the caller directory when it
    contains "Caller", and next to the loader otherwise (both tests ignore
    letter case, and "Cache" is looked for first). The file system and the PHP
    class table are parameters of the model. */
module Autoload {
  import opened Wrappers
  import opened Php

  datatype Dir = CacheDir | CallerDir | RootDir

  /** The directory a class is looked for in. */
  function DirFor(name: string): (d: Dir)
    ensures d == CacheDir <==> ContainsIgnoringCase(name, "Cache")
    ensures d == CallerDir <==> !ContainsIgnoringCase(name, "Cache") && ContainsIgnoringCase(name, "Caller")
  {
    if ContainsIgnoringCase(name, "Cache") then CacheDir
    else if ContainsIgnoringCase(name, "Caller") then CallerDir
    else RootDir
  }

  function SubDir(d: Dir): string {
    match d
    case CacheDir => "/cache/"
    case CallerDir => "/caller/"
    case RootDir => "/"
  }

  /** The path handed to realpath: the loader's directory, the
      sub-directory, the class name and ".php". */
  function ClassPath(base: string, name: string): (path: string)
    ensures |base| <= |path| && path[..|base|] == base
    ensures |path| >= 4 && path[|path| - 4..] == ".php"
  {
    base + SubDir(DirFor(name)) + name + ".php"
  }

  /** The class name sits between the sub-directory and ".php", so two
      classes routed to the same directory never share a path. */
  lemma ClassPathInjective(base: string, a: string, b: string)
    requires DirFor(a) == DirFor(b)
    requires ClassPath(base, a) == ClassPath(base, b)
    ensures a == b
  {
    var pre := base + SubDir(DirFor(a));
    assert ClassPath(base, a) == pre + a + ".php";
    assert ClassPath(base, b) == pre + b + ".php";
    assert a == ClassPath(base, a)[|pre|..|ClassPath(base, a)| - 4];
    assert b == ClassPath(base, b)[|pre|..|ClassPath(base, b)| - 4];
  }

  /** The two exception messages. realpath gives false for a missing path,
      which prints as the empty string. */
  function FileNotFound(filename: Option<string>): string {
    "File '" + filename.GetOr("") + "' not found!"
  }

  function ClassNotFound(name: string): string {
    "Class '" + name + "' not found!"
  }

  /** lastfm_autoload: resolve the path, load the file when it is an
      existing regular file, then demand that the class (or interface) is
      defined. Success carries the file that was loaded. */
  function Load(base: string, name: string, realpath: string -> Option<string>, isFile: string -> bool,
                definedAfterLoading: string -> bool): (r: Result<string, string>)
    ensures r.Success? ==>
      realpath(ClassPath(base, name)) == Some(r.value) && isFile(r.value) && definedAfterLoading(name)
    ensures realpath(ClassPath(base, name)).None? ==> r == Failure(FileNotFound(None))
    ensures realpath(ClassPath(base, name)).Some? && !isFile(realpath(ClassPath(base, name)).value) ==>
      r == Failure(FileNotFound(realpath(ClassPath(base, name))))
    ensures realpath(ClassPath(base, name)).Some? && isFile(realpath(ClassPath(base, name)).value) ==>
      (r.Success? <==> definedAfterLoading(name)) &&
      (r.Failure? ==> r.error == ClassNotFound(name))
  {
    var filename := realpath(ClassPath(base, name));
    if filename.None? || !isFile(filename.value) then Failure(FileNotFound(filename))
    else if !definedAfterLoading(name) then Failure(ClassNotFound(name))
    else Success(filename.value)
  }

  /** A name holding both words goes to the cache directory. */
  lemma CacheWinsOverCaller(name: string)
    requires ContainsIgnoringCase(name, "Cache") && ContainsIgnoringCase(name, "Caller")
    ensures DirFor(name) == CacheDir
  {
  }

  /** The letter case of the name does not matter: "MEMORYCACHE" is looked
      for in the cache directory like "MemoryCache". */
  lemma MemoryCacheRouting()
    ensures DirFor("MemoryCache") == CacheDir && DirFor("MEMORYCACHE") == CacheDir
  {
    assert "MemoryCache"[6..11] == "Cache";
    LowerSlice("MemoryCache", 6, 11);
    ContainsIgnoringCaseAt("MemoryCache", "Cache", 6);
    LowerSlice("MEMORYCACHE", 6, 11);
    assert Lower("MEMORYCACHE"[6..11]) == Lower("Cache");
    ContainsIgnoringCaseAt("MEMORYCACHE", "Cache", 6);
  }

  /** The factory lives in the caller directory. */
  lemma CallerFactoryRouting()
    ensures DirFor("CallerFactory") == CallerDir
  {
    assert "CallerFactory"[0..6] == "Caller";
    LowerSlice("CallerFactory", 0, 6);
    ContainsIgnoringCaseAt("CallerFactory", "Caller", 0);
    NotContainsIgnoringCase("CallerFactory", "Cache", 3);
  }

  /** A domain class such as Album is looked for next to the loader. */
  lemma AlbumRouting()
    ensures DirFor("Album") == RootDir
  {
    NotContainsIgnoringCasePair("Album", "Cache");
    NotContainsIgnoringCasePair("Album", "Caller");
  }
}

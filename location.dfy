/**
 * Where a store keeps its database: the scheme check of `LoadMemory.__init__`
 * and `assert_path`.
 *
 * `urllib.parse.urlparse` is a parameter (`parse`), and the file system is
 * the two sets `os.path.isdir` and `os.access(_, os.W_OK)` answer from.
 */
module Location {
  import opened Errors

  /** A url as `urllib.parse.urlparse` splits it. */
  datatype Url = Url(scheme: string, netloc: string, path: string)

  /** The directories that exist, and those of them the process may write to. */
  datatype FileSystem = FileSystem(directories: set<string>, writable: set<string>)

  /** The special path of a database held only in memory. */
  const InMemory: string := ":memory:"

  /** The url a store opens when it is given none. */
  const DefaultUrl: string := "sqlite://:memory:"

  /** The index just past the last `/` of `p`, or 0 when `p` has none. */
  function SepEnd(p: string): (i: nat)
    ensures i <= |p|
  {
    if p == [] then 0 else if p[|p| - 1] == '/' then |p| else SepEnd(p[..|p| - 1])
  }

  predicate AllSeps(s: string)
  {
    forall i | 0 <= i < |s| :: s[i] == '/'
  }

  function RStripSeps(s: string): (r: string)
    ensures r <= s
  {
    if s != [] && s[|s| - 1] == '/' then RStripSeps(s[..|s| - 1]) else s
  }

  /** `os.path.dirname(p)` on a POSIX system. */
  function DirName(p: string): string
  {
    var head := p[..SepEnd(p)];
    if head != [] && !AllSeps(head) then RStripSeps(head) else head
  }

  /** The directory `assert_path` checks for `path`: its dirname, or `.` when that is empty. */
  function CheckedDirectory(path: string): string
  {
    var d := DirName(path);
    if d == "" then "." else d
  }

  /** `assert_path(path, db_type)`: `Pass`, or the one `GeneralMemoryError` it raises. */
  function AssertPath(path: string, dbType: string, fs: FileSystem): (r: Outcome)
    ensures path == InMemory ==> (r == Pass <==> dbType == "sqlite")
    ensures path == InMemory && dbType != "sqlite" ==>
              r == Fail(GeneralMemoryError(InMemoryOnlyForSqlite(path)))
    ensures path != InMemory ==>
              (r == Pass <==> CheckedDirectory(path) in fs.directories && CheckedDirectory(path) in fs.writable)
    ensures path != InMemory && CheckedDirectory(path) !in fs.directories ==>
              r == Fail(GeneralMemoryError(MissingDirectory(CheckedDirectory(path))))
    ensures path != InMemory && CheckedDirectory(path) in fs.directories && CheckedDirectory(path) !in fs.writable ==>
              r == Fail(GeneralMemoryError(ReadOnlyDirectory(CheckedDirectory(path))))
  {
    if path == InMemory then
      if dbType != "sqlite" then Fail(GeneralMemoryError(InMemoryOnlyForSqlite(path))) else Pass
    else
      var dir := CheckedDirectory(path);
      if dir !in fs.directories then Fail(GeneralMemoryError(MissingDirectory(dir)))
      else if dir !in fs.writable then Fail(GeneralMemoryError(ReadOnlyDirectory(dir)))
      else Pass
  }

  /** The url `LoadMemory(url)` opens: a missing (falsy) url means the default. */
  function EffectiveUrl(url: string): string
  {
    if url == "" then DefaultUrl else url
  }

  /**
   * The database path `LoadMemory.__init__` hands to the engine, or the error it
   * raises first: only the sqlite scheme is supported, the path is
   * `netloc + path`, and it must pass `assert_path`.
   */
  function DatabasePath(url: string, parse: string -> Url, fs: FileSystem): (r: Result<string>)
    ensures var u := parse(EffectiveUrl(url));
            r.Ok? <==> u.scheme == "sqlite" && AssertPath(u.netloc + u.path, u.scheme, fs) == Pass
    ensures var u := parse(EffectiveUrl(url));
            r.Ok? ==> r.value == u.netloc + u.path
    ensures var u := parse(EffectiveUrl(url));
            u.scheme != "sqlite" ==> r == Err(GeneralMemoryError(UnsupportedDatabase(u.scheme)))
    ensures var u := parse(EffectiveUrl(url));
            u.scheme == "sqlite" && r.Err? ==> Fail(r.error) == AssertPath(u.netloc + u.path, u.scheme, fs)
  {
    var u := parse(EffectiveUrl(url));
    if u.scheme == "sqlite" then
      var path := u.netloc + u.path;
      match AssertPath(path, u.scheme, fs)
      case Pass => Ok(path)
      case Fail(e) => Err(e)
    else
      Err(GeneralMemoryError(UnsupportedDatabase(u.scheme)))
  }

  lemma {:induction false} SepEndWithoutSep(p: string)
    requires '/' !in p
    ensures SepEnd(p) == 0
  {
    if p != [] {
      assert p[..|p| - 1] <= p;
      SepEndWithoutSep(p[..|p| - 1]);
    }
  }

  lemma {:induction false} SepEndOfJoin(d: string, f: string)
    requires '/' !in f
    ensures SepEnd(d + "/" + f) == |d| + 1
  {
    var p := d + "/" + f;
    if f != [] {
      assert p[|p| - 1] == f[|f| - 1];
      assert p[..|p| - 1] == d + "/" + f[..|f| - 1];
      SepEndOfJoin(d, f[..|f| - 1]);
    }
  }

  /** A path without `/` is checked against the working directory `.`. */
  lemma FileNameChecksWorkingDirectory(path: string)
    requires '/' !in path
    ensures DirName(path) == ""
    ensures CheckedDirectory(path) == "."
  {
    SepEndWithoutSep(path);
  }

  /** The directory of `dir/file` is `dir`, for a file name without `/`. */
  lemma JoinedPathChecksItsDirectory(dir: string, file: string)
    requires dir != "" && dir[|dir| - 1] != '/'
    requires '/' !in file
    ensures DirName(dir + "/" + file) == dir
    ensures CheckedDirectory(dir + "/" + file) == dir
  {
    var p := dir + "/" + file;
    SepEndOfJoin(dir, file);
    var head := p[..|dir| + 1];
    assert head == dir + "/";
    assert head[|dir| - 1] == dir[|dir| - 1];
    assert head[..|head| - 1] == dir;
    assert head[|dir| - 1] != '/';
    assert !AllSeps(head);
    assert RStripSeps(dir) == dir;
    assert RStripSeps(head) == dir;
  }

  /** With no url the store opens sqlite in memory, whatever the file system holds. */
  lemma DefaultIsInMemorySqlite(parse: string -> Url, fs: FileSystem)
    requires parse(DefaultUrl) == Url("sqlite", InMemory, "")
    ensures DatabasePath("", parse, fs) == Ok(InMemory)
  {
  }

  /** `sqlite://www.zoozl.net/gibberish` fails unless the directory `www.zoozl.net` exists. */
  lemma MissingDirectoryIsRejected(parse: string -> Url, fs: FileSystem)
    requires parse("sqlite://www.zoozl.net/gibberish") == Url("sqlite", "www.zoozl.net", "/gibberish")
    requires "www.zoozl.net" !in fs.directories
    ensures DatabasePath("sqlite://www.zoozl.net/gibberish", parse, fs)
              == Err(GeneralMemoryError(MissingDirectory("www.zoozl.net")))
  {
    assert "www.zoozl.net" + "/gibberish" == "www.zoozl.net" + "/" + "gibberish";
    JoinedPathChecksItsDirectory("www.zoozl.net", "gibberish");
  }

  /** `sqlite://test_database.db` names a file in the working directory. */
  lemma RelativeFileIsInWorkingDirectory(parse: string -> Url, fs: FileSystem)
    requires parse("sqlite://test_database.db") == Url("sqlite", "test_database.db", "")
    requires "." in fs.directories && "." in fs.writable
    ensures DatabasePath("sqlite://test_database.db", parse, fs) == Ok("test_database.db")
  {
    assert "test_database.db" + "" == "test_database.db";
    FileNameChecksWorkingDirectory("test_database.db");
  }
}

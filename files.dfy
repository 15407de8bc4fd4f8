/**
 * The environment the core runs in: CSV files as tokenised lines, the process
 * environment variables it reads, POSIX path arithmetic and the two file
 * operations (`shutil.copyfile`, `shutil.move`) the orchestrator performs.
 */
module Files {
  import opened Wrappers

  /** One CSV field: a token that reads as a number, or any other text. */
  datatype Cell = Num(value: int) | Text(text: string)

  /** One CSV line as a list of fields; a blank line is the empty list. */
  type Line = seq<Cell>

  /** The file system: absolute path to the lines of the file stored there. */
  type FileSystem = map<string, seq<Line>>

  /** The exceptions the core raises. */
  datatype Error =
    | FileNotFound(path: string)            // FileNotFoundError / OSError naming a path
    | NotANumber(text: string)              // ValueError of float() or pd.to_numeric
    | EmptyData(path: string)               // pandas EmptyDataError: nothing to parse
    | RaggedLine(path: string, line: nat)   // pandas ParserError: a line of another width
    | ColumnCount(path: string, count: nat) // ValueError raised by read_config_csv
    | ModuleNotFound(name: string)          // ImportError
    | NameNotBound(name: string)            // NameError: reload of a module never imported
    | IndexOutOfRange(index: int)           // IndexError of Series.iloc
    | ZeroDivision                          // ZeroDivisionError of `%` by zero
    | MissingColumn(column: nat)            // KeyError of a data frame column lookup
    | TextColumn(column: nat)               // TypeError of arithmetic on a column read as text

  /**
   * The variables of `os.environ` the core reads, and the working directory.
   * `None` stands for a variable that is not set.
   */
  datatype Env = Env(cwd: string, resultsDir: Option<string>, avDataset: Option<string>, skipLoad: string)

  /** `os.environ.get('AV_RESULTS_DIR', os.getcwd())` */
  function ResultsDir(env: Env): string {
    env.resultsDir.GetOr(env.cwd)
  }

  predicate IsAbsolute(p: string) {
    |p| > 0 && p[0] == '/'
  }

  /** `os.path.join(dir, name)` on POSIX. */
  function Join(dir: string, name: string): (p: string)
    ensures IsAbsolute(name) ==> p == name
    ensures !IsAbsolute(name) ==> p == JoinPrefix(dir) + name
  {
    if IsAbsolute(name) then name else JoinPrefix(dir) + name
  }

  /** What `Join` puts before a relative name: the directory, ending in a slash unless empty. */
  function JoinPrefix(dir: string): (pre: string)
    ensures pre == dir || pre == dir + "/"
    ensures pre != [] ==> pre[|pre| - 1] == '/'
  {
    if dir == [] || dir[|dir| - 1] == '/' then dir else dir + "/"
  }

  /** `os.path.abspath(p)` without the normalisation of `.`, `..` and repeated slashes. */
  function AbsPath(cwd: string, p: string): (a: string)
    ensures IsAbsolute(p) ==> a == p
  {
    if IsAbsolute(p) then p else Join(cwd, p)
  }

  /** The position of the last `c` in `s`, or -1. */
  function LastIndexOf(s: string, c: char): (i: int)
    ensures -1 <= i < |s|
    ensures i >= 0 ==> s[i] == c
    ensures forall j :: i < j < |s| ==> s[j] != c
  {
    if s == [] then -1
    else if s[|s| - 1] == c then |s| - 1
    else LastIndexOf(s[..|s| - 1], c)
  }

  /**
   * The root of `os.path.splitext(p)` on POSIX: `p` without its extension, where
   * the extension starts at the last dot of the last path component, provided
   * that dot is preceded in that component by a character other than a dot.
   */
  function SplitExtRoot(p: string): (root: string)
    ensures root == p || (|root| < |p| && p[|root|] == '.' && root == p[..|root|])
  {
    var sep := LastIndexOf(p, '/');
    var dot := LastIndexOf(p, '.');
    if dot > sep && exists k :: sep + 1 <= k < dot && p[k] != '.' then p[..dot] else p
  }

  lemma {:induction false} LastIndexOfAppend(a: string, b: string, c: char)
    requires c in b
    ensures LastIndexOf(a + b, c) == |a| + LastIndexOf(b, c)
    decreases |b|
  {
    var s := a + b;
    if b[|b| - 1] == c {
      assert s[|s| - 1] == c;
    } else {
      assert s[..|s| - 1] == a + b[..|b| - 1];
      assert c in b[..|b| - 1] by {
        var k :| 0 <= k < |b| && b[k] == c;
        assert k < |b| - 1;
        assert b[..|b| - 1][k] == c;
      }
      LastIndexOfAppend(a, b[..|b| - 1], c);
    }
  }

  lemma {:induction false} LastIndexOfAbsent(s: string, c: char)
    requires c !in s
    ensures LastIndexOf(s, c) == -1
  {
    if s != [] {
      assert s[|s| - 1] in s;
      assert forall x :: x in s[..|s| - 1] ==> x in s;
      LastIndexOfAbsent(s[..|s| - 1], c);
    }
  }

  lemma {:induction false} LastIndexOfAppendAbsent(a: string, b: string, c: char)
    requires c !in b
    ensures LastIndexOf(a + b, c) == LastIndexOf(a, c)
    decreases |b|
  {
    if b != [] {
      var s := a + b;
      assert b[|b| - 1] in b;
      assert s[..|s| - 1] == a + b[..|b| - 1];
      assert forall x :: x in b[..|b| - 1] ==> x in b;
      LastIndexOfAppendAbsent(a, b[..|b| - 1], c);
    } else {
      assert a + b == a;
    }
  }

  /** The last dot of `stem.ext`, when neither part holds a dot, is the one between them. */
  lemma LastDotOfFileName(stem: string, ext: string)
    requires '.' !in stem && '.' !in ext
    ensures LastIndexOf(stem + "." + ext, '.') == |stem|
  {
    assert stem + "." + ext == (stem + ".") + ext;
    LastIndexOfAppendAbsent(stem + ".", ext, '.');
    assert (stem + ".")[..|stem|] == stem;
  }

  /**
   * Stripping the extension of a file joined to a directory leaves the directory
   * and the stem of the file name: the value `dataset_name_exclusive` receives.
   */
  lemma StripExtension(dir: string, stem: string, ext: string)
    requires stem != [] && stem[0] != '.' && '/' !in stem && '.' !in stem
    requires '/' !in ext && '.' !in ext
    ensures SplitExtRoot(Join(dir, stem + "." + ext)) == Join(dir, stem)
  {
    var name := stem + "." + ext;
    var pre := JoinPrefix(dir);
    FileNameShape(stem, ext);
    var p := pre + name;
    assert Join(dir, name) == p && Join(dir, stem) == pre + stem;
    LastIndexOfAppend(pre, name, '.');
    LastDotOfFileName(stem, ext);
    LastIndexOfAppendAbsent(pre, name, '/');
    assert p[|pre|] == stem[0];
    SplitExtRootAt(p, |pre|);
    assert p[..|pre| + |stem|] == pre + stem;
  }

  /** `stem.ext` is a relative name with a dot and no slash, starting with the stem's first character. */
  lemma FileNameShape(stem: string, ext: string)
    requires stem != [] && '/' !in stem && '/' !in ext
    ensures var name := stem + "." + ext;
      name[0] == stem[0] != '/' && '.' in name && '/' !in name
  {
    var name := stem + "." + ext;
    assert stem[0] in stem;
    assert name[|stem|] == '.';
    assert forall x :: x in name ==> x in stem || x == '.' || x in ext;
  }

  /** A non-dot character between the last slash and the last dot makes `splitext` cut at that dot. */
  lemma SplitExtRootAt(p: string, k: int)
    requires LastIndexOf(p, '/') < k < LastIndexOf(p, '.') && p[k] != '.'
    ensures SplitExtRoot(p) == p[..LastIndexOf(p, '.')]
  {
  }

  /** `os.path.exists(p)` for a file. */
  predicate Exists(fs: FileSystem, cwd: string, p: string) {
    AbsPath(cwd, p) in fs
  }

  /** `shutil.copyfile(src, dst)`: the destination receives the source's lines. */
  function CopyFile(fs: FileSystem, cwd: string, src: string, dst: string): (r: Result<FileSystem, Error>)
    ensures !Exists(fs, cwd, src) <==> r == Err(FileNotFound(src))
    ensures r.Ok? ==> Exists(r.value, cwd, dst) && r.value[AbsPath(cwd, dst)] == fs[AbsPath(cwd, src)]
    ensures r.Ok? ==> forall q :: q != AbsPath(cwd, dst) ==> (q in r.value <==> q in fs) && (q in fs ==> r.value[q] == fs[q])
  {
    if !Exists(fs, cwd, src) then Err(FileNotFound(src))
    else Ok(fs[AbsPath(cwd, dst) := fs[AbsPath(cwd, src)]])
  }

  /** `shutil.move(src, dst)` for an existing file: a rename, a no-op onto itself. */
  function MoveFile(fs: FileSystem, cwd: string, src: string, dst: string): (r: FileSystem)
    requires Exists(fs, cwd, src)
    ensures Exists(r, cwd, dst) && r[AbsPath(cwd, dst)] == fs[AbsPath(cwd, src)]
    ensures AbsPath(cwd, src) != AbsPath(cwd, dst) ==> !Exists(r, cwd, src)
    ensures forall q :: q != AbsPath(cwd, src) && q != AbsPath(cwd, dst) ==> (q in r <==> q in fs) && (q in fs ==> r[q] == fs[q])
  {
    var s, d := AbsPath(cwd, src), AbsPath(cwd, dst);
    if s == d then fs else (fs - {s})[d := fs[s]]
  }
}

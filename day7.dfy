/** Day 7, "No Space Left On Device": replay a shell transcript of `cd` and
    `ls` commands into a directory tree, add up directory sizes, then pick
    the small directories (part 1) and the smallest directory whose removal
    frees enough space (part 2). */
module NoSpace {
  import opened Text

  /** A path as its segments below `/`; `/` itself is the empty path. */
  type Path = seq<string>

  /** Every child recorded under a directory is that directory with one more
      segment, so the recorded children form a tree. */
  predicate Tree(dirs: map<Path, set<Path>>)
  {
    forall p, c :: p in dirs && c in dirs[p] ==> |c| == |p| + 1 && c[..|p|] == p
  }

  /** `q` is a child recorded under some directory. */
  predicate Recorded(dirs: map<Path, set<Path>>, q: Path)
  {
    exists p :: p in dirs && q in dirs[p]
  }

  // ---------------------------------------------------------------------------
  // Replaying the transcript

  /** What `parse` keeps while it reads the transcript: the working directory
      and the tables of children and of file sizes. */
  datatype Shell = Shell(pwd: Path, dirs: map<Path, set<Path>>, files: map<Path, nat>)

  /** The shell before the first command: at `/`, nothing recorded. */
  const Start := Shell([], map[], map[])

  /** Add `child` to the children of `parent`, creating its entry if needed. */
  function Record(dirs: map<Path, set<Path>>, parent: Path, child: Path): (r: map<Path, set<Path>>)
    ensures r.Keys == dirs.Keys + {parent}
    ensures child in r[parent]
    ensures parent in dirs ==> dirs[parent] <= r[parent]
    ensures r[parent] <= (if parent in dirs then dirs[parent] else {}) + {child}
    ensures forall p :: p in dirs && p != parent ==> r[p] == dirs[p]
  {
    dirs[parent := (if parent in dirs then dirs[parent] else {}) + {child}]
  }

  /** `cd /` goes to the root, `cd ..` to the parent (staying at the root when
      already there), and `cd name` records `name` under the working
      directory and enters it. */
  function Cd(sh: Shell, path: string): Shell
  {
    if path == "/" then sh.(pwd := [])
    else if path == ".." then sh.(pwd := if sh.pwd == [] then [] else sh.pwd[..|sh.pwd| - 1])
    else
      var child := sh.pwd + [path];
      Shell(child, Record(sh.dirs, sh.pwd, child), sh.files)
  }

  /** One line of `ls` output, `dir name` or `size name`: the entry is
      recorded under the working directory, and a file's size is stored. A
      line without a space, or a size that is not a `u64`, panics. */
  function LsLine(sh: Shell, line: string): Option<Shell>
  {
    match SplitOnce(line, " ")
    case None => None
    case Some((info, name)) =>
      var child := sh.pwd + [name];
      var dirs := Record(sh.dirs, sh.pwd, child);
      if info == "dir" then Some(sh.(dirs := dirs))
      else
        match ParseU64(info)
        case None => None
        case Some(size) => Some(Shell(sh.pwd, dirs, sh.files[child := size]))
  }

  /** The output lines of one `ls`, in order. */
  function LsLines(sh: Shell, lines: seq<string>): Option<Shell>
  {
    if lines == [] then Some(sh)
    else
      match LsLines(sh, lines[..|lines| - 1])
      case None => None
      case Some(s) => LsLine(s, lines[|lines| - 1])
  }

  predicate StartsWith(s: string, prefix: string)
  {
    |prefix| <= |s| && s[..|prefix|] == prefix
  }

  /** One command with its output, the text between two `$`: blank text is
      skipped, the first line is the command, `cd ` and `ls` are known and
      anything else panics. */
  function Execute(sh: Shell, execution: string): Option<Shell>
  {
    var e := Trim(execution);
    if e == "" then Some(sh)
    else
      var lines := Lines(e);
      if lines == [] then None
      else
        var command := lines[0];
        if StartsWith(command, "cd ") then
          match SplitOnce(command, " ")
          case None => None
          case Some((_, path)) => Some(Cd(sh, path))
        else if command == "ls" then LsLines(sh, lines[1..])
        else None
  }

  /** The commands in order, from the start. */
  function Replay(executions: seq<string>): Option<Shell>
  {
    if executions == [] then Some(Start)
    else
      match Replay(executions[..|executions| - 1])
      case None => None
      case Some(sh) => Execute(sh, executions[|executions| - 1])
  }

  /** What `parse` reads from the transcript: the text split at every `$`. */
  function Transcript(input: string): Option<Shell>
  {
    Replay(Split(input, "$"))
  }

  // ---------------------------------------------------------------------------
  // The recorded directories form a tree rooted at `/`

  /** The children form a tree, every directory with children is the root or
      a recorded child, and so is the working directory. */
  predicate Rooted(sh: Shell)
  {
    && Tree(sh.dirs)
    && (forall p :: p in sh.dirs ==> p == [] || Recorded(sh.dirs, p))
    && (sh.pwd == [] || Recorded(sh.dirs, sh.pwd))
  }

  lemma RecordKeepsRooted(sh: Shell, name: string)
    requires Rooted(sh)
    ensures var child := sh.pwd + [name];
            var dirs := Record(sh.dirs, sh.pwd, child);
            Tree(dirs) && Recorded(dirs, child)
            && (forall p :: p in dirs ==> p == [] || Recorded(dirs, p))
            && (sh.pwd == [] || Recorded(dirs, sh.pwd))
  {
    var child := sh.pwd + [name];
    var dirs := Record(sh.dirs, sh.pwd, child);
    assert child[..|sh.pwd|] == sh.pwd;
    RecordKeepsTree(sh.dirs, sh.pwd, child);
    forall q | Recorded(sh.dirs, q) ensures Recorded(dirs, q) {
      RecordKeepsRecorded(sh.dirs, sh.pwd, child, q);
    }
    assert child in dirs[sh.pwd];
  }

  lemma RecordKeepsTree(dirs: map<Path, set<Path>>, parent: Path, child: Path)
    requires Tree(dirs) && |child| == |parent| + 1 && child[..|parent|] == parent
    ensures Tree(Record(dirs, parent, child))
  {
  }

  lemma RecordKeepsRecorded(dirs: map<Path, set<Path>>, parent: Path, child: Path, q: Path)
    requires Recorded(dirs, q)
    ensures Recorded(Record(dirs, parent, child), q)
  {
    var p :| p in dirs && q in dirs[p];
    assert q in Record(dirs, parent, child)[p];
  }

  lemma ParentKeepsRooted(sh: Shell)
    requires Rooted(sh) && sh.pwd != []
    ensures Rooted(sh.(pwd := sh.pwd[..|sh.pwd| - 1]))
  {
    var p :| p in sh.dirs && sh.pwd in sh.dirs[p];
    assert sh.pwd[..|sh.pwd| - 1] == p;
  }

  lemma CdKeepsRooted(sh: Shell, path: string)
    requires Rooted(sh)
    ensures Rooted(Cd(sh, path))
  {
    if path == "/" {
    } else if path == ".." {
      if sh.pwd != [] {
        ParentKeepsRooted(sh);
      }
    } else {
      RecordKeepsRooted(sh, path);
    }
  }

  lemma LsLineKeepsRooted(sh: Shell, line: string)
    requires Rooted(sh) && LsLine(sh, line).Some?
    ensures Rooted(LsLine(sh, line).value)
  {
    var (info, name) := SplitOnce(line, " ").value;
    RecordKeepsRooted(sh, name);
    var dirs := Record(sh.dirs, sh.pwd, sh.pwd + [name]);
    if info == "dir" {
      assert LsLine(sh, line).value == sh.(dirs := dirs);
    } else {
      var size := ParseU64(info).value;
      assert LsLine(sh, line).value == Shell(sh.pwd, dirs, sh.files[sh.pwd + [name] := size]);
    }
  }

  lemma {:induction false} LsLinesKeepsRooted(sh: Shell, lines: seq<string>)
    requires Rooted(sh) && LsLines(sh, lines).Some?
    ensures Rooted(LsLines(sh, lines).value)
  {
    if lines != [] {
      LsLinesKeepsRooted(sh, lines[..|lines| - 1]);
      LsLineKeepsRooted(LsLines(sh, lines[..|lines| - 1]).value, lines[|lines| - 1]);
    }
  }

  lemma ExecuteKeepsRooted(sh: Shell, execution: string)
    requires Rooted(sh) && Execute(sh, execution).Some?
    ensures Rooted(Execute(sh, execution).value)
  {
    var e := Trim(execution);
    if e != "" {
      var lines := Lines(e);
      if StartsWith(lines[0], "cd ") {
        CdKeepsRooted(sh, SplitOnce(lines[0], " ").value.1);
      } else {
        LsLinesKeepsRooted(sh, lines[1..]);
      }
    }
  }

  /** Whatever a transcript records is a tree hanging from `/`: each child
      is its parent with one more segment, and each directory with children
      is `/` or a recorded child. */
  lemma {:induction false} ReplayRooted(executions: seq<string>)
    requires Replay(executions).Some?
    ensures Rooted(Replay(executions).value)
  {
    if executions != [] {
      var init := executions[..|executions| - 1];
      ReplayRooted(init);
      ExecuteKeepsRooted(Replay(init).value, executions[|executions| - 1]);
    }
  }

  // ---------------------------------------------------------------------------
  // What one `ls` records

  /** An `ls` output line `parse` accepts: a descriptor, a space, a name,
      where the descriptor is `dir` or a `u64` size. */
  predicate EntryLine(line: string)
  {
    match SplitOnce(line, " ")
    case None => false
    case Some((info, _)) => info == "dir" || ParseU64(info).Some?
  }

  /** The paths an `ls` in `pwd` lists. */
  function Children(pwd: Path, lines: seq<string>): set<Path>
  {
    if lines == [] then {}
    else
      Children(pwd, lines[..|lines| - 1])
      + match SplitOnce(lines[|lines| - 1], " ")
        case None => {}
        case Some((_, name)) => {pwd + [name]}
  }

  /** The file sizes an `ls` in `pwd` lists, a later line for the same name
      overriding an earlier one. */
  function FilesOf(pwd: Path, lines: seq<string>): map<Path, nat>
  {
    if lines == [] then map[]
    else FilesOf(pwd, lines[..|lines| - 1]) + ListedFile(pwd, lines[|lines| - 1])
  }

  /** The file size one `ls` line in `pwd` lists, if it lists a file. */
  function ListedFile(pwd: Path, line: string): map<Path, nat>
  {
    match SplitOnce(line, " ")
    case None => map[]
    case Some((info, name)) =>
      if info == "dir" then map[]
      else match ParseU64(info)
        case None => map[]
        case Some(size) => map[pwd + [name] := size]
  }

  /** The shell after an `ls` in `sh.pwd` whose lines are all accepted. */
  function Listed(sh: Shell, lines: seq<string>): Shell
  {
    var old_children := if sh.pwd in sh.dirs then sh.dirs[sh.pwd] else {};
    Shell(sh.pwd,
          if lines == [] then sh.dirs else sh.dirs[sh.pwd := old_children + Children(sh.pwd, lines)],
          sh.files + FilesOf(sh.pwd, lines))
  }

  lemma LsLineOutcome(sh: Shell, line: string)
    ensures LsLine(sh, line).Some? <==> EntryLine(line)
  {
  }

  lemma MapUnionAssoc(a: map<Path, nat>, b: map<Path, nat>, c: map<Path, nat>)
    ensures (a + b) + c == a + (b + c)
  {
  }

  /** An accepted `ls` line records its file, if it lists one. */
  lemma LsLineFiles(sh: Shell, line: string)
    requires EntryLine(line)
    ensures LsLine(sh, line).Some? && LsLine(sh, line).value.files == sh.files + ListedFile(sh.pwd, line)
  {
    var (info, name) := SplitOnce(line, " ").value;
    if info != "dir" {
      var size := ParseU64(info).value;
      assert sh.files[sh.pwd + [name] := size] == sh.files + map[sh.pwd + [name] := size];
    } else {
      assert sh.files + map[] == sh.files;
    }
  }

  lemma ChildrenStep(sh: Shell, lines: seq<string>, child: Path)
    requires lines != [] && SplitOnce(lines[|lines| - 1], " ").Some?
    requires child == sh.pwd + [SplitOnce(lines[|lines| - 1], " ").value.1]
    ensures Record(Listed(sh, lines[..|lines| - 1]).dirs, sh.pwd, child) == Listed(sh, lines).dirs
  {
    var init := lines[..|lines| - 1];
    var old_children := if sh.pwd in sh.dirs then sh.dirs[sh.pwd] else {};
    assert Children(sh.pwd, lines) == Children(sh.pwd, init) + {child};
    if init == [] {
      assert Children(sh.pwd, lines) == {child};
    } else {
      assert (old_children + Children(sh.pwd, init)) + {child}
          == old_children + Children(sh.pwd, lines);
    }
  }

  lemma ListedStep(sh: Shell, lines: seq<string>)
    requires lines != [] && EntryLine(lines[|lines| - 1])
    ensures LsLine(Listed(sh, lines[..|lines| - 1]), lines[|lines| - 1]) == Some(Listed(sh, lines))
  {
    var (info, name) := SplitOnce(lines[|lines| - 1], " ").value;
    ChildrenStep(sh, lines, sh.pwd + [name]);
    FilesStep(sh, lines);
  }

  lemma FilesStep(sh: Shell, lines: seq<string>)
    requires lines != [] && EntryLine(lines[|lines| - 1])
    ensures LsLine(Listed(sh, lines[..|lines| - 1]), lines[|lines| - 1]).Some?
    ensures LsLine(Listed(sh, lines[..|lines| - 1]), lines[|lines| - 1]).value.files == Listed(sh, lines).files
  {
    var init := lines[..|lines| - 1];
    var last := lines[|lines| - 1];
    LsLineFiles(Listed(sh, init), last);
    MapUnionAssoc(sh.files, FilesOf(sh.pwd, init), ListedFile(sh.pwd, last));
  }

  /** Every line of `lines` is an accepted `ls` output line. */
  predicate AllEntries(lines: seq<string>)
  {
    forall i :: 0 <= i < |lines| ==> EntryLine(lines[i])
  }

  lemma AllEntriesSnoc(lines: seq<string>)
    requires lines != []
    ensures AllEntries(lines) <==> AllEntries(lines[..|lines| - 1]) && EntryLine(lines[|lines| - 1])
  {
    var init := lines[..|lines| - 1];
    assert forall i :: 0 <= i < |init| ==> init[i] == lines[i];
  }

  lemma {:induction false} LsLinesSucceed(sh: Shell, lines: seq<string>)
    ensures LsLines(sh, lines).Some? <==> AllEntries(lines)
  {
    if lines != [] {
      var init := lines[..|lines| - 1];
      LsLinesSucceed(sh, init);
      AllEntriesSnoc(lines);
      if LsLines(sh, init).Some? {
        LsLineOutcome(LsLines(sh, init).value, lines[|lines| - 1]);
      }
    }
  }

  lemma {:induction false} LsLinesValue(sh: Shell, lines: seq<string>)
    requires LsLines(sh, lines).Some?
    ensures LsLines(sh, lines).value == Listed(sh, lines)
  {
    if lines == [] {
      assert sh.files + map[] == sh.files;
    } else {
      var init := lines[..|lines| - 1];
      LsLinesValue(sh, init);
      LsLineOutcome(LsLines(sh, init).value, lines[|lines| - 1]);
      ListedStep(sh, lines);
    }
  }

  /** An `ls` succeeds exactly when every output line is accepted, and then
      adds the listed paths to the working directory's children and the
      listed sizes to the files, leaving the working directory alone. */
  lemma LsLinesOutcome(sh: Shell, lines: seq<string>)
    ensures LsLines(sh, lines).Some? <==> AllEntries(lines)
    ensures LsLines(sh, lines).Some? ==> LsLines(sh, lines).value == Listed(sh, lines)
  {
    LsLinesSucceed(sh, lines);
    if LsLines(sh, lines).Some? {
      LsLinesValue(sh, lines);
    }
  }

  lemma ListedTwice(sh: Shell, lines: seq<string>)
    ensures Listed(Listed(sh, lines), lines) == Listed(sh, lines)
  {
    var files := FilesOf(sh.pwd, lines);
    assert (sh.files + files) + files == sh.files + files;
    if lines != [] {
      var once := Listed(sh, lines).dirs;
      var c := (if sh.pwd in sh.dirs then sh.dirs[sh.pwd] else {}) + Children(sh.pwd, lines);
      assert c + Children(sh.pwd, lines) == c;
      assert once[sh.pwd := c] == once;
    }
  }

  /** Children are a set and a file's size is replaced, not added: listing
      the same directory a second time changes nothing. */
  lemma ListTwice(sh: Shell, lines: seq<string>)
    requires LsLines(sh, lines).Some?
    ensures LsLines(LsLines(sh, lines).value, lines) == LsLines(sh, lines)
  {
    LsLinesOutcome(sh, lines);
    LsLinesOutcome(Listed(sh, lines), lines);
    ListedTwice(sh, lines);
  }

  /** One entry of an `ls` listing. */
  datatype Entry = DirEntry(name: string) | FileEntry(size: nat, name: string)

  /** How the listing shows an entry: `dir name` or `size name`. */
  function EntryText(e: Entry): string
  {
    match e
    case DirEntry(name) => "dir " + name
    case FileEntry(size, name) => Decimal(size) + " " + name
  }

  /** What listing an entry adds: the entry under the working directory
      and, for a file, its size. */
  function Added(sh: Shell, e: Entry): Shell
  {
    var child := sh.pwd + [e.name];
    var dirs := Record(sh.dirs, sh.pwd, child);
    match e
    case DirEntry(_) => sh.(dirs := dirs)
    case FileEntry(size, _) => sh.(dirs := dirs, files := sh.files[child := size])
  }

  /** Reading an entry's line back records exactly that entry: a `dir`
      line leaves the files alone, a size line stores the size. */
  lemma ListEntry(sh: Shell, e: Entry)
    requires e.FileEntry? ==> e.size <= U64_MAX
    ensures LsLine(sh, EntryText(e)) == Some(Added(sh, e))
  {
    match e
    case DirEntry(name) =>
      assert EntryText(e) == "dir" + [' '] + name;
      SplitOnceAfterPrefix("dir", ' ', name);
    case FileEntry(size, name) =>
      assert EntryText(e) == Decimal(size) + [' '] + name;
      DecimalHasNoSpace(size);
      SplitOnceAfterPrefix(Decimal(size), ' ', name);
      ParseDecimal(size);
      assert Decimal(size)[0] != 'd';
  }

  /** `cd name` records `name` just as the output line `dir name` does, and
      recording it a second time changes nothing. */
  lemma CdRecordsLikeDir(sh: Shell, name: string)
    requires name != "/" && name != ".."
    ensures LsLine(sh, "dir " + name) == Some(sh.(dirs := Cd(sh, name).dirs))
    ensures LsLine(Cd(sh, name).(pwd := sh.pwd), "dir " + name) == Some(Cd(sh, name).(pwd := sh.pwd))
  {
    assert "dir " + name == "dir" + [' '] + name;
    SplitOnceAfterPrefix("dir", ' ', name);
    var child := sh.pwd + [name];
    var once := Record(sh.dirs, sh.pwd, child);
    assert Record(once, sh.pwd, child) == once;
  }

  // ---------------------------------------------------------------------------
  // Directory sizes

  /** The longest path with recorded children. */
  ghost function MaxLen(keys: set<Path>): (m: nat)
    ensures forall k :: k in keys ==> |k| <= m
  {
    if keys == {} then 0
    else
      var k :| k in keys;
      var m := MaxLen(keys - {k});
      if |k| > m then |k| else m
  }

  /** How far `path` is from the deepest directory with children; it falls
      from a directory to each of its children. */
  ghost function Rank(dirs: map<Path, set<Path>>, path: Path): nat
  {
    if path in dirs then MaxLen(dirs.Keys) + 1 - |path| else 0
  }

  lemma RankFalls(dirs: map<Path, set<Path>>, path: Path, e: Path)
    requires Tree(dirs) && path in dirs && e in dirs[path]
    ensures Rank(dirs, e) < Rank(dirs, path)
  {
  }

  /** The size of a directory: its files' sizes plus its subdirectories'
      sizes; a path with no recorded children has size 0. */
  ghost function DirSize(dirs: map<Path, set<Path>>, files: map<Path, nat>, path: Path): nat
    requires Tree(dirs)
    decreases Rank(dirs, path), 1
  {
    if path in dirs then EntriesSize(dirs, files, path, dirs[path]) else 0
  }

  /** The size of a child: a file's own size, or the directory's size. */
  ghost function EntrySize(dirs: map<Path, set<Path>>, files: map<Path, nat>, path: Path, e: Path): nat
    requires Tree(dirs) && path in dirs && e in dirs[path]
    decreases Rank(dirs, path), 0, 0
  {
    RankFalls(dirs, path, e);
    if e in files then files[e] else DirSize(dirs, files, e)
  }

  /** The sizes of some of the children of `path`, added up. */
  ghost function EntriesSize(dirs: map<Path, set<Path>>, files: map<Path, nat>, path: Path, entries: set<Path>): nat
    requires Tree(dirs) && path in dirs && entries <= dirs[path]
    decreases Rank(dirs, path), 0, 1, entries
  {
    if entries == {} then 0
    else
      var e :| e in entries;
      EntrySize(dirs, files, path, e) + EntriesSize(dirs, files, path, entries - {e})
  }

  /** The sum does not depend on the order the children are visited in. */
  lemma {:induction false} EntriesSizeRemove(dirs: map<Path, set<Path>>, files: map<Path, nat>, path: Path,
                                             entries: set<Path>, e: Path)
    requires Tree(dirs) && path in dirs && entries <= dirs[path] && e in entries
    ensures EntriesSize(dirs, files, path, entries)
         == EntrySize(dirs, files, path, e) + EntriesSize(dirs, files, path, entries - {e})
    decreases entries
  {
    var x :| x in entries && EntriesSize(dirs, files, path, entries)
         == EntrySize(dirs, files, path, x) + EntriesSize(dirs, files, path, entries - {x});
    if x != e {
      EntriesSizeRemove(dirs, files, path, entries - {x}, e);
      EntriesSizeRemove(dirs, files, path, entries - {e}, x);
      assert entries - {x} - {e} == entries - {e} - {x};
    }
  }

  /** A directory is at least as large as each of its children. */
  lemma ChildNoLarger(dirs: map<Path, set<Path>>, files: map<Path, nat>, path: Path, e: Path)
    requires Tree(dirs) && path in dirs && e in dirs[path]
    ensures EntrySize(dirs, files, path, e) <= DirSize(dirs, files, path)
    ensures e !in files ==> DirSize(dirs, files, e) <= DirSize(dirs, files, path)
  {
    EntriesSizeRemove(dirs, files, path, dirs[path], e);
  }

  /** The directories the size walk from `path` visits: `path` itself and,
      below it, every child that is not a file. */
  ghost predicate Reaches(dirs: map<Path, set<Path>>, files: map<Path, nat>, path: Path, q: Path)
    requires Tree(dirs)
    decreases Rank(dirs, path)
  {
    q == path
    || (path in dirs && exists e :: e in dirs[path] && e !in files && Descends(dirs, files, path, e, q))
  }

  ghost predicate Descends(dirs: map<Path, set<Path>>, files: map<Path, nat>, path: Path, e: Path, q: Path)
    requires Tree(dirs) && path in dirs && e in dirs[path]
    decreases Rank(dirs, path), 0
  {
    RankFalls(dirs, path, e);
    Reaches(dirs, files, e, q)
  }

  /** The walk never visits a file below its starting point. */
  lemma {:induction false} ReachesNoFile(dirs: map<Path, set<Path>>, files: map<Path, nat>, path: Path, q: Path)
    requires Tree(dirs) && Reaches(dirs, files, path, q) && q != path
    ensures q !in files
    decreases Rank(dirs, path)
  {
    var e :| e in dirs[path] && e !in files && Descends(dirs, files, path, e, q);
    RankFalls(dirs, path, e);
    if q != e {
      ReachesNoFile(dirs, files, e, q);
    }
  }

  /** The walk from `path` reaches `q` through one of the children in `done`. */
  ghost predicate ReachesVia(dirs: map<Path, set<Path>>, files: map<Path, nat>, path: Path, done: set<Path>, q: Path)
    requires Tree(dirs) && path in dirs && done <= dirs[path]
  {
    exists e :: e in done && e !in files && Descends(dirs, files, path, e, q)
  }

  lemma ReachesUnfold(dirs: map<Path, set<Path>>, files: map<Path, nat>, path: Path)
    requires Tree(dirs)
    ensures forall q :: Reaches(dirs, files, path, q) <==>
              q == path || (path in dirs && ReachesVia(dirs, files, path, dirs[path], q))
  {
  }

  // ---------------------------------------------------------------------------
  // Size conservation: a directory's size is the sum of the files below it

  /** The sizes of a set of files, added up. */
  ghost function FileSum(files: map<Path, nat>, fs: set<Path>): nat
    requires fs <= files.Keys
    decreases fs
  {
    if fs == {} then 0
    else
      var f :| f in fs;
      files[f] + FileSum(files, fs - {f})
  }

  lemma {:induction false} FileSumRemove(files: map<Path, nat>, fs: set<Path>, f: Path)
    requires fs <= files.Keys && f in fs
    ensures FileSum(files, fs) == files[f] + FileSum(files, fs - {f})
    decreases fs
  {
    var x :| x in fs && FileSum(files, fs) == files[x] + FileSum(files, fs - {x});
    if x != f {
      FileSumRemove(files, fs - {x}, f);
      FileSumRemove(files, fs - {f}, x);
      assert fs - {x} - {f} == fs - {f} - {x};
    }
  }

  /** The sum over two disjoint sets of files is the sum of the two sums. */
  lemma {:induction false} FileSumUnion(files: map<Path, nat>, a: set<Path>, b: set<Path>)
    requires a <= files.Keys && b <= files.Keys && a !! b
    ensures FileSum(files, a + b) == FileSum(files, a) + FileSum(files, b)
    decreases a
  {
    if a == {} {
      assert a + b == b;
    } else {
      var x :| x in a;
      FileSumRemove(files, a + b, x);
      FileSumRemove(files, a, x);
      assert (a + b) - {x} == (a - {x}) + b;
      FileSumUnion(files, a - {x}, b);
    }
  }

  /** Every directory the walk from `path` visits lies below `path`. */
  lemma {:induction false} ReachesBelow(dirs: map<Path, set<Path>>, files: map<Path, nat>, path: Path, q: Path)
    requires Tree(dirs) && Reaches(dirs, files, path, q)
    ensures |path| <= |q| && q[..|path|] == path
    decreases Rank(dirs, path)
  {
    if q != path {
      var e :| e in dirs[path] && e !in files && Descends(dirs, files, path, e, q);
      RankFalls(dirs, path, e);
      ReachesBelow(dirs, files, e, q);
      assert q[..|e|][..|path|] == q[..|path|];
    }
  }

  /** The files the walk from `path` adds up: those recorded directly under
      a directory it visits. */
  ghost function FilesBelow(dirs: map<Path, set<Path>>, files: map<Path, nat>, path: Path): (fs: set<Path>)
    requires Tree(dirs)
    ensures fs <= files.Keys
  {
    set f | f in files.Keys && exists p :: Reaches(dirs, files, path, p) && p in dirs && f in dirs[p]
  }

  lemma FilesBelowLie(dirs: map<Path, set<Path>>, files: map<Path, nat>, path: Path, f: Path)
    requires Tree(dirs) && f in FilesBelow(dirs, files, path)
    ensures |path| < |f| && f[..|path|] == path
  {
    var p :| Reaches(dirs, files, path, p) && p in dirs && f in dirs[p];
    ReachesBelow(dirs, files, path, p);
    assert f[..|p|][..|path|] == f[..|path|];
  }

  /** The files a child contributes: itself when it is a file, else the
      files below it. */
  ghost function EntryFiles(dirs: map<Path, set<Path>>, files: map<Path, nat>, e: Path): (fs: set<Path>)
    requires Tree(dirs)
    ensures fs <= files.Keys
  {
    if e in files then {e} else FilesBelow(dirs, files, e)
  }

  lemma EntryFilesLie(dirs: map<Path, set<Path>>, files: map<Path, nat>, e: Path, f: Path)
    requires Tree(dirs) && f in EntryFiles(dirs, files, e)
    ensures |e| <= |f| && f[..|e|] == e
  {
    if e !in files {
      FilesBelowLie(dirs, files, e, f);
    }
  }

  /** The files some children contribute together. */
  ghost function GatherFiles(dirs: map<Path, set<Path>>, files: map<Path, nat>, entries: set<Path>): (fs: set<Path>)
    requires Tree(dirs)
    ensures fs <= files.Keys
  {
    set f | f in files.Keys && exists e :: e in entries && f in EntryFiles(dirs, files, e)
  }

  /** Two children of one directory that contribute the same file are the
      same child. */
  lemma SiblingsShareNoFile(dirs: map<Path, set<Path>>, files: map<Path, nat>, path: Path, e: Path, e': Path, f: Path)
    requires Tree(dirs) && path in dirs && e in dirs[path] && e' in dirs[path]
    requires f in EntryFiles(dirs, files, e) && f in EntryFiles(dirs, files, e')
    ensures e == e'
  {
    EntryFilesLie(dirs, files, e, f);
    EntryFilesLie(dirs, files, e', f);
    assert e == f[..|e|] == f[..|e'|] == e';
  }

  /** Sibling children contribute disjoint sets of files, since each file
      lies below exactly one of them. */
  lemma GatherRemove(dirs: map<Path, set<Path>>, files: map<Path, nat>, path: Path, entries: set<Path>, e: Path)
    requires Tree(dirs) && path in dirs && entries <= dirs[path] && e in entries
    ensures GatherFiles(dirs, files, entries) == EntryFiles(dirs, files, e) + GatherFiles(dirs, files, entries - {e})
    ensures EntryFiles(dirs, files, e) !! GatherFiles(dirs, files, entries - {e})
  {
    forall f | f in EntryFiles(dirs, files, e)
      ensures f !in GatherFiles(dirs, files, entries - {e})
    {
      if f in GatherFiles(dirs, files, entries - {e}) {
        var e' :| e' in entries - {e} && f in EntryFiles(dirs, files, e');
        SiblingsShareNoFile(dirs, files, path, e, e', f);
        assert false;
      }
    }
  }

  /** The files below a directory are the files its children contribute. */
  lemma FilesBelowUnfold(dirs: map<Path, set<Path>>, files: map<Path, nat>, path: Path)
    requires Tree(dirs) && path in dirs
    ensures FilesBelow(dirs, files, path) == GatherFiles(dirs, files, dirs[path])
  {
    forall f | f in FilesBelow(dirs, files, path)
      ensures f in GatherFiles(dirs, files, dirs[path])
    {
      var p :| Reaches(dirs, files, path, p) && p in dirs && f in dirs[p];
      if p == path {
        assert f in EntryFiles(dirs, files, f);
      } else {
        var e :| e in dirs[path] && e !in files && Descends(dirs, files, path, e, p);
        RankFalls(dirs, path, e);
        assert f in FilesBelow(dirs, files, e);
        assert f in EntryFiles(dirs, files, e);
      }
    }
    forall f | f in GatherFiles(dirs, files, dirs[path])
      ensures f in FilesBelow(dirs, files, path)
    {
      var e :| e in dirs[path] && f in EntryFiles(dirs, files, e);
      if e in files {
        assert Reaches(dirs, files, path, path);
      } else {
        var p :| Reaches(dirs, files, e, p) && p in dirs && f in dirs[p];
        RankFalls(dirs, path, e);
        assert Descends(dirs, files, path, e, p);
        assert Reaches(dirs, files, path, p);
      }
    }
  }

  /** Size conservation: a directory's size is the sum of the sizes of the
      files below it, each counted once. */
  lemma {:induction false} DirSizeIsFileSum(dirs: map<Path, set<Path>>, files: map<Path, nat>, path: Path)
    requires Tree(dirs)
    ensures DirSize(dirs, files, path) == FileSum(files, FilesBelow(dirs, files, path))
    decreases Rank(dirs, path), 1
  {
    if path in dirs {
      EntriesFileSum(dirs, files, path, dirs[path]);
      FilesBelowUnfold(dirs, files, path);
    } else {
      assert FilesBelow(dirs, files, path) == {};
    }
  }

  /** Some children's sizes add up to the sum of the files they contribute. */
  lemma {:induction false} EntriesFileSum(dirs: map<Path, set<Path>>, files: map<Path, nat>, path: Path, entries: set<Path>)
    requires Tree(dirs) && path in dirs && entries <= dirs[path]
    ensures EntriesSize(dirs, files, path, entries) == FileSum(files, GatherFiles(dirs, files, entries))
    decreases Rank(dirs, path), 0, entries
  {
    if entries == {} {
      assert GatherFiles(dirs, files, entries) == {};
    } else {
      var e :| e in entries;
      EntriesSizeRemove(dirs, files, path, entries, e);
      EntriesFileSum(dirs, files, path, entries - {e});
      GatherRemove(dirs, files, path, entries, e);
      FileSumUnion(files, EntryFiles(dirs, files, e), GatherFiles(dirs, files, entries - {e}));
      if e in files {
        FileSumRemove(files, {e}, e);
        assert {e} - {e} == {};
      } else {
        RankFalls(dirs, path, e);
        DirSizeIsFileSum(dirs, files, e);
      }
    }
  }

  /** The tables `parse` builds, and the sizes the walk fills in. */
  class FileSystem {
    const dirs: map<Path, set<Path>>
    const files: map<Path, nat>
    var pathSizes: map<Path, nat>

    constructor (dirs: map<Path, set<Path>>, files: map<Path, nat>)
      ensures this.dirs == dirs && this.files == files && pathSizes == map[]
    {
      this.dirs := dirs;
      this.files := files;
      pathSizes := map[];
    }

    /** Walk the tree below `path` after its children, storing the size of
        every directory visited and returning the size of `path`. */
    method CalculateDirSizes(path: Path) returns (size: nat)
      requires Tree(dirs)
      modifies this
      ensures size == DirSize(dirs, files, path)
      ensures size == FileSum(files, FilesBelow(dirs, files, path))
      ensures forall q :: q in pathSizes <==> q in old(pathSizes) || Reaches(dirs, files, path, q)
      ensures forall q :: q in pathSizes ==>
                pathSizes[q] == if Reaches(dirs, files, path, q) then DirSize(dirs, files, q) else old(pathSizes)[q]
      decreases Rank(dirs, path)
    {
      size := 0;
      if path in dirs {
        var entries := dirs[path];
        var rest := entries;
        while rest != {}
          invariant rest <= entries
          invariant size == EntriesSize(dirs, files, path, entries - rest)
          invariant forall q :: q in pathSizes <==> q in old(pathSizes) || ReachesVia(dirs, files, path, entries - rest, q)
          invariant forall q :: q in pathSizes ==>
                      pathSizes[q] == if ReachesVia(dirs, files, path, entries - rest, q)
                                      then DirSize(dirs, files, q) else old(pathSizes)[q]
          decreases rest
        {
          var entry :| entry in rest;
          ghost var done := entries - rest;
          if entry in files {
            size := size + files[entry];
          } else {
            RankFalls(dirs, path, entry);
            var sub := CalculateDirSizes(entry);
            size := size + sub;
          }
          rest := rest - {entry};
          assert entries - rest == done + {entry};
          EntriesSizeRemove(dirs, files, path, done + {entry}, entry);
          assert done + {entry} - {entry} == done;
        }
        assert entries - rest == entries;
      }
      pathSizes := pathSizes[path := size];
      ReachesUnfold(dirs, files, path);
      DirSizeIsFileSum(dirs, files, path);
    }
  }

  // ---------------------------------------------------------------------------
  // Parsing

  lemma {:induction false} ReplayFailsLater(executions: seq<string>, k: nat)
    requires k <= |executions| && Replay(executions[..k]).None?
    ensures Replay(executions).None?
  {
    if k < |executions| {
      var init := executions[..|executions| - 1];
      assert init[..k] == executions[..k];
      ReplayFailsLater(init, k);
    } else {
      assert executions[..k] == executions;
    }
  }

  lemma ReplayStep(executions: seq<string>, i: nat)
    requires i < |executions|
    ensures Replay(executions[..i + 1])
         == match Replay(executions[..i])
            case None => None
            case Some(sh) => Execute(sh, executions[i])
  {
    assert executions[..i + 1][..i] == executions[..i];
  }

  lemma ReplayWhole(executions: seq<string>)
    ensures Replay(executions[..|executions|]) == Replay(executions)
  {
    assert executions[..|executions|] == executions;
  }

  lemma ExecuteBlank(sh: Shell, execution: string)
    requires Trim(execution) == ""
    ensures Execute(sh, execution) == Some(sh)
  {
  }

  lemma ExecuteCd(sh: Shell, execution: string, path: string)
    requires Trim(execution) != "" && |Lines(Trim(execution))| > 0
    requires StartsWith(Lines(Trim(execution))[0], "cd ")
    requires SplitOnce(Lines(Trim(execution))[0], " ").Some?
    requires path == SplitOnce(Lines(Trim(execution))[0], " ").value.1
    ensures Execute(sh, execution) == Some(Cd(sh, path))
  {
  }

  lemma ExecuteLs(sh: Shell, execution: string)
    requires Trim(execution) != "" && |Lines(Trim(execution))| > 0
    requires !StartsWith(Lines(Trim(execution))[0], "cd ") && Lines(Trim(execution))[0] == "ls"
    ensures Execute(sh, execution) == LsLines(sh, Lines(Trim(execution))[1..])
  {
  }

  lemma ExecuteFails(sh: Shell, execution: string)
    requires Trim(execution) != ""
    requires || |Lines(Trim(execution))| == 0
             || (StartsWith(Lines(Trim(execution))[0], "cd ") && SplitOnce(Lines(Trim(execution))[0], " ").None?)
             || (!StartsWith(Lines(Trim(execution))[0], "cd ") && Lines(Trim(execution))[0] != "ls")
    ensures Execute(sh, execution) == None
  {
  }

  lemma LsStep(sh: Shell, output: seq<string>, j: nat, s: Shell)
    requires j < |output| && LsLines(sh, output[..j]) == Some(s)
    ensures LsLines(sh, output[..j + 1]) == LsLine(s, output[j])
  {
    assert output[..j + 1][..j] == output[..j];
  }

  lemma LsWhole(sh: Shell, output: seq<string>)
    ensures LsLines(sh, output[..|output|]) == LsLines(sh, output)
  {
    assert output[..|output|] == output;
  }

  /** The output loop of `ls`: record each entry under `pwd` and store each
      file's size. */
  method List(pwd: Path, dirs: map<Path, set<Path>>, files: map<Path, nat>, output: seq<string>)
    returns (r: Option<(map<Path, set<Path>>, map<Path, nat>)>)
    ensures r.None? <==> LsLines(Shell(pwd, dirs, files), output).None?
    ensures r.Some? ==> LsLines(Shell(pwd, dirs, files), output) == Some(Shell(pwd, r.value.0, r.value.1))
  {
    ghost var sh := Shell(pwd, dirs, files);
    var children: map<Path, set<Path>>, sizes: map<Path, nat> := dirs, files;
    var j := 0;
    while j < |output|
      invariant 0 <= j <= |output|
      invariant LsLines(sh, output[..j]) == Some(Shell(pwd, children, sizes))
    {
      LsStep(sh, output, j, Shell(pwd, children, sizes));
      var split := SplitOnce(output[j], " ");
      if split.None? {
        LsLinesSucceed(sh, output);
        return None;
      }
      var (info, name) := split.value;
      var filePath := pwd + [name];
      children := Record(children, pwd, filePath);
      if info == "dir" {
        j := j + 1;
        continue;
      }
      var size := ParseU64(info);
      if size.None? {
        LsLinesSucceed(sh, output);
        return None;
      }
      sizes := sizes[filePath := size.value];
      j := j + 1;
    }
    LsWhole(sh, output);
    return Some((children, sizes));
  }

  /** One command with its output: move the working directory, or record
      what `ls` lists. */
  method RunCommand(pwd: Path, dirs: map<Path, set<Path>>, files: map<Path, nat>, execution: string)
    returns (r: Option<Shell>)
    ensures r == Execute(Shell(pwd, dirs, files), execution)
  {
    var sh := Shell(pwd, dirs, files);
    var text := Trim(execution);
    if text == "" {
      ExecuteBlank(sh, execution);
      return Some(sh);
    }
    var lines := Lines(text);
    if lines == [] {
      ExecuteFails(sh, execution);
      return None;
    }
    var command := lines[0];
    if StartsWith(command, "cd ") {
      var split := SplitOnce(command, " ");
      if split.None? {
        ExecuteFails(sh, execution);
        return None;
      }
      var path := split.value.1;
      ExecuteCd(sh, execution, path);
      var pwd, dirs := pwd, dirs;
      if path == "/" {
        pwd := [];
      } else if path == ".." {
        if pwd != [] {
          pwd := pwd[..|pwd| - 1];
        }
      } else {
        var filePath := pwd + [path];
        dirs := Record(dirs, pwd, filePath);
        pwd := filePath;
      }
      return Some(Shell(pwd, dirs, files));
    } else if command == "ls" {
      ExecuteLs(sh, execution);
      var listed := List(pwd, dirs, files, lines[1..]);
      if listed.None? {
        return None;
      }
      return Some(Shell(pwd, listed.value.0, listed.value.1));
    } else {
      ExecuteFails(sh, execution);
      return None;
    }
  }

  /** Replay the transcript, then walk the tree from `/` to fill in the
      directory sizes. */
  method Parse(input: string) returns (r: Option<FileSystem>)
    ensures r.None? <==> Transcript(input).None?
    ensures r.Some? ==> fresh(r.value) && Transcript(input).Some?
                        && r.value.dirs == Transcript(input).value.dirs
                        && r.value.files == Transcript(input).value.files
    ensures r.Some? ==> Tree(r.value.dirs)
    ensures r.Some? ==> forall q :: q in r.value.pathSizes <==> Reaches(r.value.dirs, r.value.files, [], q)
    ensures r.Some? ==> forall q :: q in r.value.pathSizes ==>
                          r.value.pathSizes[q] == DirSize(r.value.dirs, r.value.files, q)
    ensures r.Some? ==> [] in r.value.pathSizes
                        && r.value.pathSizes[[]] == FileSum(r.value.files, FilesBelow(r.value.dirs, r.value.files, []))
  {
    var executions := Split(input, "$");
    var pwd: Path := [];
    var dirs: map<Path, set<Path>> := map[];
    var files: map<Path, nat> := map[];
    var i := 0;
    while i < |executions|
      invariant 0 <= i <= |executions|
      invariant Replay(executions[..i]) == Some(Shell(pwd, dirs, files))
    {
      ReplayStep(executions, i);
      var next := RunCommand(pwd, dirs, files, executions[i]);
      if next.None? {
        ReplayFailsLater(executions, i + 1);
        return None;
      }
      pwd, dirs, files := next.value.pwd, next.value.dirs, next.value.files;
      i := i + 1;
    }
    ReplayWhole(executions);
    ReplayRooted(executions);
    assert Transcript(input) == Some(Shell(pwd, dirs, files));
    assert Tree(dirs);
    var fs := new FileSystem(dirs, files);
    var _ := fs.CalculateDirSizes([]);
    DirSizeIsFileSum(dirs, files, []);
    return Some(fs);
  }

  // ---------------------------------------------------------------------------
  // The two answers

  const SmallLimit: nat := 100_000
  const TotalSpace: nat := 70_000_000
  const MinSpace: nat := 30_000_000

  /** The stored size of a path, 0 when none is stored. */
  function SizeOf(sizes: map<Path, nat>, p: Path): nat
  {
    if p in sizes then sizes[p] else 0
  }

  /** The sizes of the small directories among `keys`, added up. */
  ghost function SmallTotal(keys: set<Path>, sizes: map<Path, nat>): nat
    decreases keys
  {
    if keys == {} then 0
    else
      var k :| k in keys;
      (if SizeOf(sizes, k) <= SmallLimit then SizeOf(sizes, k) else 0) + SmallTotal(keys - {k}, sizes)
  }

  lemma {:induction false} SmallTotalRemove(keys: set<Path>, sizes: map<Path, nat>, k: Path)
    requires k in keys
    ensures SmallTotal(keys, sizes)
         == (if SizeOf(sizes, k) <= SmallLimit then SizeOf(sizes, k) else 0) + SmallTotal(keys - {k}, sizes)
    decreases keys
  {
    var x :| x in keys && SmallTotal(keys, sizes)
         == (if SizeOf(sizes, x) <= SmallLimit then SizeOf(sizes, x) else 0) + SmallTotal(keys - {x}, sizes);
    if x != k {
      SmallTotalRemove(keys - {x}, sizes, k);
      SmallTotalRemove(keys - {k}, sizes, x);
      assert keys - {x} - {k} == keys - {k} - {x};
    }
  }

  /** Part 1: the sizes of the directories with children that are at most
      100000, added up; a directory with no stored size counts as 0. */
  ghost function Part1(dirs: map<Path, set<Path>>, sizes: map<Path, nat>): (r: nat)
    ensures r <= SmallLimit * |dirs.Keys|
    ensures forall k :: k in dirs && SizeOf(sizes, k) <= SmallLimit ==> SizeOf(sizes, k) <= r
  {
    SmallTotalBounds(dirs.Keys, sizes);
    SmallTotal(dirs.Keys, sizes)
  }

  /** Every small directory's size is part of the total, and the total is
      at most 100000 per directory. */
  lemma {:induction false} SmallTotalBounds(keys: set<Path>, sizes: map<Path, nat>)
    ensures SmallTotal(keys, sizes) <= SmallLimit * |keys|
    ensures forall k :: k in keys && SizeOf(sizes, k) <= SmallLimit ==> SizeOf(sizes, k) <= SmallTotal(keys, sizes)
    decreases keys
  {
    if keys != {} {
      var x :| x in keys;
      SmallTotalRemove(keys, sizes, x);
      SmallTotalBounds(keys - {x}, sizes);
      forall k | k in keys && SizeOf(sizes, k) <= SmallLimit
        ensures SizeOf(sizes, k) <= SmallTotal(keys, sizes)
      {
        SmallTotalRemove(keys, sizes, k);
      }
    }
  }

  /** The smallest stored size among `keys` that is at least `bound`. */
  ghost function SmallestAtLeast(keys: set<Path>, sizes: map<Path, nat>, bound: nat): (r: Option<nat>)
    ensures r.None? <==> forall k :: k in keys ==> SizeOf(sizes, k) < bound
    ensures r.Some? ==> bound <= r.value && exists k :: k in keys && SizeOf(sizes, k) == r.value
    ensures r.Some? ==> forall k :: k in keys && bound <= SizeOf(sizes, k) ==> r.value <= SizeOf(sizes, k)
    decreases keys
  {
    if keys == {} then None
    else
      var k :| k in keys;
      var rest := SmallestAtLeast(keys - {k}, sizes, bound);
      var size := SizeOf(sizes, k);
      if size < bound then rest
      else
        match rest
        case None => Some(size)
        case Some(m) => Some(if size < m then size else m)
  }

  /** Part 2: with 70000000 in all and 30000000 needed, the smallest
      directory whose removal frees enough. It fails when `/` has no size,
      when `/` exceeds the disk, when enough space is already free, and when
      no directory is large enough. */
  ghost function Part2(dirs: map<Path, set<Path>>, sizes: map<Path, nat>): (r: Option<nat>)
    ensures r.Some? <==> && [] in sizes && sizes[[]] <= TotalSpace
                         && TotalSpace - sizes[[]] <= MinSpace
                         && exists k :: k in dirs && MinSpace - (TotalSpace - sizes[[]]) <= SizeOf(sizes, k)
    ensures r.Some? ==> var toFree := MinSpace - (TotalSpace - sizes[[]]);
                        && toFree <= r.value
                        && (exists k :: k in dirs && SizeOf(sizes, k) == r.value)
                        && forall k :: k in dirs && toFree <= SizeOf(sizes, k) ==> r.value <= SizeOf(sizes, k)
  {
    if [] !in sizes then None
    else
      var used := sizes[[]];
      if used > TotalSpace then None
      else
        var unused := TotalSpace - used;
        if unused > MinSpace then None
        else SmallestAtLeast(dirs.Keys, sizes, MinSpace - unused)
  }

  // ---------------------------------------------------------------------------
  // The worked example: the tree of the puzzle statement

  function FixtureDirs(): map<Path, set<Path>>
  {
    map[[] := {["a"], ["b.txt"], ["c.dat"], ["d"]},
        ["a"] := {["a", "e"], ["a", "f"], ["a", "g"], ["a", "h.lst"]},
        ["a", "e"] := {["a", "e", "i"]},
        ["d"] := {["d", "j"], ["d", "d.log"], ["d", "d.ext"], ["d", "k"]}]
  }

  function FixtureFiles(): map<Path, nat>
  {
    map[["a", "e", "i"] := 584, ["a", "f"] := 29116, ["a", "g"] := 2557, ["a", "h.lst"] := 62596,
        ["b.txt"] := 14848514, ["c.dat"] := 8504156,
        ["d", "j"] := 4060174, ["d", "d.log"] := 8033020, ["d", "d.ext"] := 5626152, ["d", "k"] := 7214296]
  }

  /** The stored sizes: the directories' totals and, as listed by hand, the files' own sizes. */
  function FixtureSizes(): map<Path, nat>
  {
    FixtureFiles() + map[[] := 48381165, ["a"] := 94853, ["a", "e"] := 584, ["d"] := 24933642]
  }

  lemma FixtureTree()
    ensures Tree(FixtureDirs())
  {
  }

  lemma EntriesOfOne(dirs: map<Path, set<Path>>, files: map<Path, nat>, path: Path, a: Path)
    requires Tree(dirs) && path in dirs && a in dirs[path]
    ensures EntriesSize(dirs, files, path, {a}) == EntrySize(dirs, files, path, a)
  {
    EntriesSizeRemove(dirs, files, path, {a}, a);
    assert {a} - {a} == {};
  }

  lemma EntriesOfTwo(dirs: map<Path, set<Path>>, files: map<Path, nat>, path: Path, a: Path, b: Path)
    requires Tree(dirs) && path in dirs && {a, b} <= dirs[path] && a != b
    ensures EntriesSize(dirs, files, path, {a, b})
         == EntrySize(dirs, files, path, a) + EntrySize(dirs, files, path, b)
  {
    EntriesSizeRemove(dirs, files, path, {a, b}, a);
    assert {a, b} - {a} == {b};
    EntriesOfOne(dirs, files, path, b);
  }

  lemma EntriesOfThree(dirs: map<Path, set<Path>>, files: map<Path, nat>, path: Path, a: Path, b: Path, c: Path)
    requires Tree(dirs) && path in dirs && {a, b, c} <= dirs[path] && a != b && a != c && b != c
    ensures EntriesSize(dirs, files, path, {a, b, c})
         == EntrySize(dirs, files, path, a) + EntrySize(dirs, files, path, b) + EntrySize(dirs, files, path, c)
  {
    EntriesSizeRemove(dirs, files, path, {a, b, c}, a);
    assert {a, b, c} - {a} == {b, c};
    EntriesOfTwo(dirs, files, path, b, c);
  }

  lemma SizeOfOne(dirs: map<Path, set<Path>>, files: map<Path, nat>, path: Path, a: Path)
    requires Tree(dirs) && path in dirs && dirs[path] == {a}
    ensures DirSize(dirs, files, path) == EntrySize(dirs, files, path, a)
  {
    EntriesOfOne(dirs, files, path, a);
  }

  lemma SizeOfFour(dirs: map<Path, set<Path>>, files: map<Path, nat>, path: Path, a: Path, b: Path, c: Path, d: Path)
    requires Tree(dirs) && path in dirs && dirs[path] == {a, b, c, d}
    requires a != b && a != c && a != d && b != c && b != d && c != d
    ensures DirSize(dirs, files, path)
         == EntrySize(dirs, files, path, a) + EntrySize(dirs, files, path, b)
          + EntrySize(dirs, files, path, c) + EntrySize(dirs, files, path, d)
  {
    EntriesSizeRemove(dirs, files, path, {a, b, c, d}, a);
    assert {a, b, c, d} - {a} == {b, c, d};
    EntriesOfThree(dirs, files, path, b, c, d);
  }

  /** The entries of the example, stated one by one. */
  predicate ExampleShape(dirs: map<Path, set<Path>>, files: map<Path, nat>)
  {
    && [] in dirs && dirs[[]] == {["a"], ["b.txt"], ["c.dat"], ["d"]}
    && ["a"] in dirs && dirs[["a"]] == {["a", "e"], ["a", "f"], ["a", "g"], ["a", "h.lst"]}
    && ["a", "e"] in dirs && dirs[["a", "e"]] == {["a", "e", "i"]}
    && ["d"] in dirs && dirs[["d"]] == {["d", "j"], ["d", "d.log"], ["d", "d.ext"], ["d", "k"]}
    && ["a"] !in files && ["a", "e"] !in files && ["d"] !in files
    && ["a", "e", "i"] in files && files[["a", "e", "i"]] == 584
    && ["a", "f"] in files && files[["a", "f"]] == 29116
    && ["a", "g"] in files && files[["a", "g"]] == 2557
    && ["a", "h.lst"] in files && files[["a", "h.lst"]] == 62596
    && ["b.txt"] in files && files[["b.txt"]] == 14848514
    && ["c.dat"] in files && files[["c.dat"]] == 8504156
    && ["d", "j"] in files && files[["d", "j"]] == 4060174
    && ["d", "d.log"] in files && files[["d", "d.log"]] == 8033020
    && ["d", "d.ext"] in files && files[["d", "d.ext"]] == 5626152
    && ["d", "k"] in files && files[["d", "k"]] == 7214296
  }

  lemma ExampleSizeE(dirs: map<Path, set<Path>>, files: map<Path, nat>)
    requires Tree(dirs) && ExampleShape(dirs, files)
    ensures DirSize(dirs, files, ["a", "e"]) == 584
  {
    SizeOfOne(dirs, files, ["a", "e"], ["a", "e", "i"]);
  }

  lemma ExampleSizeA(dirs: map<Path, set<Path>>, files: map<Path, nat>)
    requires Tree(dirs) && ExampleShape(dirs, files)
    ensures DirSize(dirs, files, ["a"]) == 94853
  {
    ExampleSizeE(dirs, files);
    SizeOfFour(dirs, files, ["a"], ["a", "e"], ["a", "f"], ["a", "g"], ["a", "h.lst"]);
  }

  lemma ExampleSizeD(dirs: map<Path, set<Path>>, files: map<Path, nat>)
    requires Tree(dirs) && ExampleShape(dirs, files)
    ensures DirSize(dirs, files, ["d"]) == 24933642
  {
    SizeOfFour(dirs, files, ["d"], ["d", "j"], ["d", "d.log"], ["d", "d.ext"], ["d", "k"]);
  }

  lemma ExampleSizeRoot(dirs: map<Path, set<Path>>, files: map<Path, nat>)
    requires Tree(dirs) && ExampleShape(dirs, files)
    ensures DirSize(dirs, files, []) == 48381165
  {
    ExampleSizeA(dirs, files);
    ExampleSizeD(dirs, files);
    SizeOfFour(dirs, files, [], ["a"], ["b.txt"], ["c.dat"], ["d"]);
  }

  lemma FixtureShape()
    ensures ExampleShape(FixtureDirs(), FixtureFiles())
  {
  }

  /** Every directory total of the example, for any tables of its shape. */
  lemma ExampleTotals(dirs: map<Path, set<Path>>, files: map<Path, nat>, sizes: map<Path, nat>)
    requires Tree(dirs) && ExampleShape(dirs, files) && ExampleSizes(dirs, sizes)
    ensures forall p :: p in dirs ==> DirSize(dirs, files, p) == SizeOf(sizes, p)
  {
    ExampleSizeE(dirs, files);
    ExampleSizeA(dirs, files);
    ExampleSizeD(dirs, files);
    ExampleSizeRoot(dirs, files);
  }

  /** The size of `/` in the example is 48381165, and the walk agrees with
      every directory total of the example. */
  lemma FixtureTotals()
    ensures Tree(FixtureDirs())
    ensures DirSize(FixtureDirs(), FixtureFiles(), []) == 48381165
    ensures forall p :: p in FixtureDirs() ==> DirSize(FixtureDirs(), FixtureFiles(), p) == SizeOf(FixtureSizes(), p)
  {
    FixtureTree();
    FixtureShape();
    FixtureExampleSizes();
    var d, f, s := FixtureDirs(), FixtureFiles(), FixtureSizes();
    ExampleSizeRoot(d, f);
    ExampleTotals(d, f, s);
  }

  lemma FixtureDirTotals()
    ensures var s := FixtureSizes();
      && [] in s && s[[]] == 48381165 && ["a"] in s && s[["a"]] == 94853
      && ["a", "e"] in s && s[["a", "e"]] == 584 && ["d"] in s && s[["d"]] == 24933642
  {
  }

  lemma FixtureKeys()
    ensures FixtureDirs().Keys == {[], ["a"], ["a", "e"], ["d"]}
  {
  }

  /** The directory totals of the example, for any tables that hold them. */
  predicate ExampleSizes(dirs: map<Path, set<Path>>, sizes: map<Path, nat>)
  {
    && dirs.Keys == {[], ["a"], ["a", "e"], ["d"]}
    && [] in sizes && sizes[[]] == 48381165 && ["a"] in sizes && sizes[["a"]] == 94853
    && ["a", "e"] in sizes && sizes[["a", "e"]] == 584 && ["d"] in sizes && sizes[["d"]] == 24933642
  }

  lemma ExamplePart1(dirs: map<Path, set<Path>>, sizes: map<Path, nat>)
    requires ExampleSizes(dirs, sizes)
    ensures Part1(dirs, sizes) == 95437
  {
    var r: Path, a: Path, e: Path, d: Path := [], ["a"], ["a", "e"], ["d"];
    var keys := dirs.Keys;
    SmallTotalRemove(keys, sizes, r);
    assert keys - {r} == {a, e, d};
    SmallTotalRemove({a, e, d}, sizes, a);
    assert {a, e, d} - {a} == {e, d};
    SmallTotalRemove({e, d}, sizes, e);
    assert {e, d} - {e} == {d};
    SmallTotalRemove({d}, sizes, d);
    assert {d} - {d} == {};
  }

  lemma ExamplePart2(dirs: map<Path, set<Path>>, sizes: map<Path, nat>)
    requires ExampleSizes(dirs, sizes)
    ensures Part2(dirs, sizes) == Some(24933642)
  {
    var r: Path, a: Path, e: Path, d: Path := [], ["a"], ["a", "e"], ["d"];
    assert SizeOf(sizes, r) == 48381165 && SizeOf(sizes, a) == 94853;
    assert SizeOf(sizes, e) == 584 && SizeOf(sizes, d) == 24933642;
    assert d in dirs;
    var v := Part2(dirs, sizes).value;
    var k :| k in dirs && SizeOf(sizes, k) == v;
    assert k == r || k == a || k == e || k == d;
  }

  lemma FixtureExampleSizes()
    ensures ExampleSizes(FixtureDirs(), FixtureSizes())
  {
    FixtureKeys();
    FixtureDirTotals();
  }

  /** The example's part 1 answer is 95437. */
  lemma FixturePart1()
    ensures Part1(FixtureDirs(), FixtureSizes()) == 95437
  {
    FixtureExampleSizes();
    ExamplePart1(FixtureDirs(), FixtureSizes());
  }

  /** The example's part 2 answer is 24933642. */
  lemma FixturePart2()
    ensures Part2(FixtureDirs(), FixtureSizes()) == Some(24933642)
  {
    FixtureExampleSizes();
    ExamplePart2(FixtureDirs(), FixtureSizes());
  }

}

/** No space left on device (src/bin/07.rs): a terminal transcript of `cd`
    and `ls` commands is replayed to learn the entries of every listed
    directory. A directory's combined size is the size of its own files plus
    the combined sizes of its subdirectories. Part one adds up the combined
    sizes below 100000; part two picks the smallest directory whose deletion
    leaves room for the update. */
module NoSpace {
  import opened Wrappers
  import opened Parsing

  /** One line of `ls` output. */
  datatype Listing = Dir(name: string) | File(size: nat, name: string)

  datatype Command = Ls(listings: seq<Listing>) | Cd(dir: string)

  /** A `Utf8PathBuf` as its components; an absolute path starts with "/". */
  type Path = seq<string>

  /** What `ls` showed in one directory, and its own files' total size. */
  datatype Directory = Directory(path: Path, listings: seq<Listing>, localSize: nat)

  /** The source's panics, and its parse failures, as values. */
  datatype Error =
    | ParseFailed         // `parse_input` reports an error
    | Unparsed(rest: string)
    | MissingDirectory    // `calc_combined` cannot find a listed subdirectory
    | DiskOverfull        // `DISK_SIZE - used` goes below zero
    | EnoughSpace         // `UPDATE_SIZE - free` goes below zero
    | NoCandidate         // no directory is large enough to delete

  // ---------------------------------------------------------------------------
  // Parsing the transcript

  /** `line_ending`: `\n` or `\r\n`. */
  function LineEnding(s: string): (r: Option<string>)
    ensures r.Some? ==> |r.value| < |s|
  {
    if "\r\n" <= s then Some(s[2..]) else Tag("\n", s)
  }

  /** `take_till1(is_newline)`: the rest of the line, at least one character. */
  function LineText(s: string): (r: Option<Parsed<string>>)
    ensures r.Some? ==> |r.value.rest| < |s|
  {
    TakeWhile1(IsNotNewline, s)
  }

  /** `parse_cd`: `$ cd `, a name, and a `\n`. */
  function ParseCd(s: string): (r: Option<Parsed<Command>>)
    ensures r.Some? ==> |r.value.rest| < |s|
  {
    var afterTag :- Tag("$ cd ", s);
    var dir :- LineText(afterTag);
    var afterNewline :- Newline(dir.rest);
    Some(Parsed(Cd(dir.value), afterNewline))
  }

  /** `parse_dir`: `dir ` and a name. */
  function ParseDir(s: string): (r: Option<Parsed<Listing>>)
    ensures r.Some? ==> |r.value.rest| < |s|
  {
    var afterTag :- Tag("dir ", s);
    var name :- LineText(afterTag);
    Some(Parsed(Dir(name.value), name.rest))
  }

  /** `parse_file`: a `u32` size, blanks and a name. */
  function ParseFile(s: string): (r: Option<Parsed<Listing>>)
    ensures r.Some? ==> |r.value.rest| < |s|
  {
    var size :- U32(s);
    var blank :- TakeWhile1(IsSpace, size.rest);
    var name :- LineText(blank.rest);
    Some(Parsed(File(size.value, name.value), name.rest))
  }

  /** `alt((parse_file, parse_dir))`. */
  function ParseListing(s: string): (r: Option<Parsed<Listing>>)
    ensures r.Some? ==> |r.value.rest| < |s|
  {
    var file := ParseFile(s);
    if file.Some? then file else ParseDir(s)
  }

  lemma ListingProgress()
    ensures NeverGrows(ParseListing) && SkipperConsumes(LineEnding)
  {
  }

  /** `parse_ls`: `$ ls`, a line ending, entries separated by line endings,
      and an optional final line ending. */
  function ParseLs(s: string): (r: Option<Parsed<Command>>)
    ensures r.Some? ==> |r.value.rest| < |s|
  {
    ListingProgress();
    var afterTag :- Tag("$ ls", s);
    var afterLine :- LineEnding(afterTag);
    var listings :- SeparatedList1(ParseListing, LineEnding, afterLine);
    var afterLast := LineEnding(listings.rest).UnwrapOr(listings.rest);
    Some(Parsed(Ls(listings.value), afterLast))
  }

  /** `alt((parse_cd, parse_ls))`. */
  function ParseCommand(s: string): (r: Option<Parsed<Command>>)
    ensures r.Some? ==> |r.value.rest| < |s|
  {
    var cd := ParseCd(s);
    if cd.Some? then cd else ParseLs(s)
  }

  lemma CommandProgress()
    ensures AlwaysConsumes(ParseCommand)
  {
  }

  /** `parse_input`: one or more commands. */
  function ParseInput(s: string): (r: Option<Parsed<seq<Command>>>)
    ensures r.Some? ==> |r.value.value| >= 1
  {
    CommandProgress();
    Many1(ParseCommand, s)
  }

  /** A name `take_till1(is_newline)` reads whole: not empty, no line break. */
  predicate LineName(name: string) {
    name != [] && '\n' !in name
  }

  lemma LineTextOf(name: string, rest: string)
    requires LineName(name) && (rest == [] || rest[0] == '\n')
    ensures LineText(name + rest) == Some(Parsed(name, rest))
  {
    TakeWhile1OfConcat(IsNotNewline, name, rest);
  }

  function FormatCd(dir: string): string {
    "$ cd " + dir + "\n"
  }

  /** Reading a `cd` line back gives the command. */
  lemma CdRoundTrip(dir: string, rest: string)
    requires LineName(dir)
    ensures ParseCd(FormatCd(dir) + rest) == Some(Parsed(Cd(dir), rest))
  {
    var afterTag := dir + "\n" + rest;
    assert FormatCd(dir) + rest == "$ cd " + afterTag;
    TagOfConcat("$ cd ", afterTag);
    assert afterTag == dir + ("\n" + rest);
    LineTextOf(dir, "\n" + rest);
    TagOfConcat("\n", rest);
  }

  function FormatListing(l: Listing): string {
    match l
    case Dir(name) => "dir " + name
    case File(size, name) => NatToString(size) + " " + name
  }

  /** Reading an entry of `ls` output back gives the entry, for names that
      neither start with a blank nor hold a line break, and sizes that fit
      in 32 bits. */
  lemma ListingRoundTrip(l: Listing, rest: string)
    requires LineName(l.name) && !IsSpace(l.name[0])
    requires l.File? ==> l.size <= U32_MAX
    requires rest == [] || rest[0] == '\n'
    ensures ParseListing(FormatListing(l) + rest) == Some(Parsed(l, rest))
  {
    match l
    case Dir(name) =>
      assert ParseFile(FormatListing(l) + rest).None? by {
        assert (FormatListing(l) + rest)[0] == 'd';
      }
      assert FormatListing(l) + rest == "dir " + (name + rest);
      TagOfConcat("dir ", name + rest);
      LineTextOf(name, rest);
    case File(size, name) =>
      FileRoundTrip(size, name, rest);
  }

  lemma FileRoundTrip(size: nat, name: string, rest: string)
    requires LineName(name) && !IsSpace(name[0]) && size <= U32_MAX
    requires rest == [] || rest[0] == '\n'
    ensures ParseFile(NatToString(size) + " " + name + rest) == Some(Parsed(File(size, name), rest))
  {
    U32RoundTrip(size, " " + (name + rest));
    FileOfPieces(NatToString(size), size, name, rest);
  }

  /** `parse_file` on a size already known to read back, a blank and a name. */
  lemma FileOfPieces(digits: string, size: nat, name: string, rest: string)
    requires U32(digits + (" " + (name + rest))) == Some(Parsed(size, " " + (name + rest)))
    requires LineName(name) && !IsSpace(name[0])
    requires rest == [] || rest[0] == '\n'
    ensures ParseFile(digits + " " + name + rest) == Some(Parsed(File(size, name), rest))
  {
    assert digits + " " + name + rest == digits + (" " + (name + rest));
    TakeWhile1OfConcat(IsSpace, " ", name + rest);
    LineTextOf(name, rest);
  }

  /** The source's `test_cd`. */
  lemma CdExample()
    ensures ParseCd("$ cd /\n") == Some(Parsed(Cd("/"), ""))
  {
    CdRoundTrip("/", "");
    assert FormatCd("/") + "" == "$ cd /\n";
  }

  /** How `parse_ls` reads an input once its pieces are known. */
  lemma LsOfPieces(s: string, entries: string, listings: seq<Listing>)
    requires Tag("$ ls", s) == Some("\n" + entries)
    requires SeparatedList1(ParseListing, LineEnding, entries) == Some(Parsed(listings, ""))
    ensures ParseLs(s) == Some(Parsed(Ls(listings), ""))
  {
    TagOfConcat("\n", entries);
    assert LineEnding("\n" + entries) == Some(entries);
    assert LineEnding("").None? && LineEnding("").UnwrapOr("") == "";
  }

  /** A newline and one last entry read as a tail of one entry. */
  lemma TailOfOne(second: string, b: Listing)
    requires ParseListing(second) == Some(Parsed(b, ""))
    ensures SeparatedTail(ParseListing, LineEnding, "\n" + second) == Parsed([b], "")
  {
    ListingProgress();
    TagOfConcat("\n", second);
    assert LineEnding("\n" + second) == Some(second);
    assert LineEnding("").None?;
    assert SeparatedTail(ParseListing, LineEnding, "") == Parsed([], "");
    assert [b] + [] == [b];
  }

  /** An entry, a newline and a last entry read as a list of two. */
  lemma ListOfTwo(first: string, second: string, a: Listing, b: Listing)
    requires ParseListing(first + ("\n" + second)) == Some(Parsed(a, "\n" + second))
    requires ParseListing(second) == Some(Parsed(b, ""))
    ensures SeparatedList1(ParseListing, LineEnding, first + ("\n" + second)) == Some(Parsed([a, b], ""))
  {
    ListingProgress();
    TailOfOne(second, b);
    var s := first + ("\n" + second);
    assert SeparatedList0(ParseListing, LineEnding, s) == Parsed([a] + [b], "");
    assert [a] + [b] == [a, b];
  }

  /** Two formatted entries separated by a newline read as a list of two. */
  lemma TwoEntries(a: Listing, b: Listing)
    requires LineName(a.name) && !IsSpace(a.name[0]) && (a.File? ==> a.size <= U32_MAX)
    requires LineName(b.name) && !IsSpace(b.name[0]) && (b.File? ==> b.size <= U32_MAX)
    ensures SeparatedList1(ParseListing, LineEnding, FormatListing(a) + ("\n" + FormatListing(b)))
            == Some(Parsed([a, b], ""))
  {
    var second := FormatListing(b);
    ListingRoundTrip(a, "\n" + second);
    ListingRoundTrip(b, "");
    assert second + "" == second;
    ListOfTwo(FormatListing(a), second, a, b);
  }

  /** The shape of the source's `test_ls`: `$ ls` and two entries on their
      own lines read as one listing, with nothing left over. */
  lemma LsOfTwo(a: Listing, b: Listing)
    requires LineName(a.name) && !IsSpace(a.name[0]) && (a.File? ==> a.size <= U32_MAX)
    requires LineName(b.name) && !IsSpace(b.name[0]) && (b.File? ==> b.size <= U32_MAX)
    ensures ParseLs("$ ls\n" + FormatListing(a) + "\n" + FormatListing(b)) == Some(Parsed(Ls([a, b]), ""))
  {
    var entries := FormatListing(a) + ("\n" + FormatListing(b));
    var s := "$ ls\n" + FormatListing(a) + "\n" + FormatListing(b);
    LsLayout(FormatListing(a), FormatListing(b));
    TagOfConcat("$ ls", "\n" + entries);
    TwoEntries(a, b);
    LsOfPieces(s, entries, [a, b]);
  }

  /** How the text of a two-entry listing regroups. */
  lemma LsLayout(x: string, y: string)
    ensures "$ ls\n" + x + "\n" + y == "$ ls" + ("\n" + (x + ("\n" + y)))
  {
    assert "$ ls\n" == "$ ls" + "\n";
  }

  // ---------------------------------------------------------------------------
  // Replaying the transcript

  /** The components of a name written with '/' between them: a doubled or
      final '/' adds no component, as for `Utf8PathBuf`. */
  function Components(name: string): Path
    decreases |name|
  {
    match IndexOf(name, '/')
    case None => if name == [] then [] else [name]
    case Some(i) => (if i == 0 then [] else [name[..i]]) + Components(name[i + 1..])
  }

  /** Every component is a non-empty name without '/'. */
  lemma {:induction false} ComponentsArePlain(name: string)
    ensures forall i :: 0 <= i < |Components(name)| ==>
      Components(name)[i] != [] && '/' !in Components(name)[i]
    decreases |name|
  {
    match IndexOf(name, '/')
    case None =>
    case Some(i) =>
      ComponentsArePlain(name[i + 1..]);
  }

  /** A relative name has a first component, the text before its first '/'. */
  lemma RelativeHasComponent(name: string)
    requires Relative(name)
    ensures |Components(name)| >= 1 && Components(name)[0] == Split(name, '/')[0]
  {
    match IndexOf(name, '/')
    case None =>
    case Some(i) => assert i != 0;
  }

  /** A name without '/' is one component. */
  lemma OneComponent(name: string)
    requires name != [] && '/' !in name
    ensures Components(name) == [name]
  {
  }

  /** A first component, a '/', and the rest of the name. */
  lemma ComponentsStep(first: string, rest: string)
    requires first != [] && '/' !in first
    ensures Components(first + (['/'] + rest)) == [first] + Components(rest)
  {
    var name := first + (['/'] + rest);
    assert name[..|first|] == first;
    assert name[|first| + 1..] == rest;
    IndexOfAfterClean(first, '/', rest);
    ComponentsAt(name, |first|);
  }

  /** The components of a name whose first '/' is at `i`. */
  lemma ComponentsAt(name: string, i: nat)
    requires IndexOf(name, '/') == Some(i)
    ensures i < |name|
    ensures Components(name) == (if i == 0 then [] else [name[..i]]) + Components(name[i + 1..])
  {
    match IndexOf(name, '/')
    case Some(j) =>
      assert j == i;
  }

  /** Non-empty names without '/', joined by '/', have themselves as components. */
  lemma {:induction false} ComponentsOfJoin(parts: seq<string>)
    requires |parts| >= 1
    requires forall i :: 0 <= i < |parts| ==> parts[i] != [] && '/' !in parts[i]
    ensures Components(Join(parts, '/')) == parts
  {
    if |parts| == 1 {
      OneComponent(parts[0]);
    } else {
      assert [parts[0]] + parts[1..] == parts;
      var rest := Join(parts[1..], '/');
      assert Join(parts, '/') == parts[0] + (['/'] + rest);
      ComponentsStep(parts[0], rest);
      ComponentsOfJoin(parts[1..]);
    }
  }

  /** `Utf8PathBuf::push`: a name starting with '/' replaces the path by the
      root and its components, any other name appends its components. */
  function Push(path: Path, name: string): Path {
    if name != [] && name[0] == '/' then ["/"] + Components(name) else path + Components(name)
  }

  /** Pushing a relative name goes at least one level deeper below the path. */
  lemma PushExtends(path: Path, name: string)
    requires Relative(name)
    ensures |Push(path, name)| > |path| && Push(path, name)[..|path|] == path
  {
    RelativeHasComponent(name);
  }

  /** Pushing an absolute name starts again from the root, wherever the path was. */
  lemma PushAbsolute(path: Path, name: string)
    requires name != [] && !Relative(name)
    ensures Push(path, name) == Push([], name) && Push(path, name)[0] == "/"
  {
  }

  /** `Utf8PathBuf::pop`: drops the last component; the empty path and the
      root have no parent and stay as they are. */
  function Pop(path: Path): (r: Path)
    ensures r <= path
    ensures |r| == |path| - 1 <==> path != [] && path != ["/"]
  {
    if path == [] || path == ["/"] then path else path[..|path| - 1]
  }

  /** A name that `push` appends to rather than letting it replace the path. */
  predicate Relative(name: string) {
    name != [] && name[0] != '/'
  }

  /** `cd name` then `cd ..` leaves every component of a relative name but
      its last: `cd a/b` then `cd ..` is in `a`. */
  lemma PopPushComponents(path: Path, name: string)
    requires Relative(name)
    ensures Pop(Push(path, name)) == path + Components(name)[..|Components(name)| - 1]
  {
    var cs := Components(name);
    RelativeHasComponent(name);
    ComponentsArePlain(name);
    assert Push(path, name) != ["/"] by {
      if |path| == 0 && |cs| == 1 {
        assert '/' !in cs[0];
        assert Push(path, name)[0] == cs[0];
      }
    }
    assert Push(path, name)[..|path| + |cs| - 1] == path + cs[..|cs| - 1];
  }

  /** `cd name` then `cd ..` returns to where it started when the name is
      one component. */
  lemma PopPush(path: Path, name: string)
    requires Relative(name) && '/' !in name
    ensures Pop(Push(path, name)) == path
  {
    OneComponent(name);
    PopPushComponents(path, name);
  }

  /** The directory `cd dir` moves to. */
  function ChangeDir(cwd: Path, dir: string): Path {
    if dir == ".." then Pop(cwd) else Push(cwd, dir)
  }

  /** `calc_local_dir_size`'s share of one entry: a file's size, and 0 for a
      subdirectory. */
  function Share(l: Listing): nat {
    match l
    case Dir(_) => 0
    case File(size, _) => size
  }

  /** `calc_local_dir_size`. */
  function LocalSize(listings: seq<Listing>): (size: nat)
    ensures forall i :: 0 <= i < |listings| ==> Share(listings[i]) <= size
  {
    if listings == [] then 0
    else Share(listings[0]) + LocalSize(listings[1..])
  }

  /** The sizes of the files among the entries, in order. */
  function FileSizes(listings: seq<Listing>): seq<nat> {
    if listings == [] then []
    else if listings[0].File? then [listings[0].size] + FileSizes(listings[1..])
    else FileSizes(listings[1..])
  }

  function Sum(xs: seq<nat>): nat {
    if xs == [] then 0 else xs[0] + Sum(xs[1..])
  }

  /** The local size is the total of the files' sizes: subdirectories add nothing. */
  lemma {:induction false} LocalSizeIsFileTotal(listings: seq<Listing>)
    ensures LocalSize(listings) == Sum(FileSizes(listings))
  {
    if listings != [] {
      LocalSizeIsFileTotal(listings[1..]);
    }
  }

  /** The local size of two runs of entries is the sum of theirs. */
  lemma {:induction false} LocalSizeConcat(a: seq<Listing>, b: seq<Listing>)
    ensures LocalSize(a + b) == LocalSize(a) + LocalSize(b)
  {
    if a == [] {
      assert a + b == b;
    } else {
      assert (a + b)[1..] == a[1..] + b;
      LocalSizeConcat(a[1..], b);
    }
  }

  /** The working directory after the commands, starting from the empty path. */
  function CwdAfter(commands: seq<Command>): Path {
    if commands == [] then []
    else
      var cwd := CwdAfter(commands[..|commands| - 1]);
      match commands[|commands| - 1]
      case Ls(_) => cwd
      case Cd(dir) => ChangeDir(cwd, dir)
  }

  /** The directories the commands list, one per `ls`, in order. */
  function Listed(commands: seq<Command>): seq<Directory> {
    if commands == [] then []
    else
      var init := commands[..|commands| - 1];
      match commands[|commands| - 1]
      case Ls(listings) => Listed(init) + [Directory(CwdAfter(init), listings, LocalSize(listings))]
      case Cd(_) => Listed(init)
  }

  function LsCount(commands: seq<Command>): nat {
    if commands == [] then 0
    else LsCount(commands[..|commands| - 1]) + (if commands[|commands| - 1].Ls? then 1 else 0)
  }

  /** Each `ls` gives exactly one directory: the `k`th `ls` gives the `k`th
      directory, tagged with the working directory at that point and with
      its listing's local size. */
  lemma {:induction false} ListedAt(commands: seq<Command>, i: nat)
    requires i < |commands| && commands[i].Ls?
    ensures |Listed(commands)| == LsCount(commands)
    ensures LsCount(commands[..i]) < |Listed(commands)|
    ensures Listed(commands)[LsCount(commands[..i])]
         == Directory(CwdAfter(commands[..i]), commands[i].listings, LocalSize(commands[i].listings))
  {
    var init := commands[..|commands| - 1];
    ListedLength(init);
    if i < |commands| - 1 {
      ListedAt(init, i);
      assert init[..i] == commands[..i];
    } else {
      assert init == commands[..i];
    }
  }

  lemma {:induction false} ListedLength(commands: seq<Command>)
    ensures |Listed(commands)| == LsCount(commands)
  {
    if commands != [] {
      ListedLength(commands[..|commands| - 1]);
    }
  }

  /** `run_part_one`: walk the commands, moving the working directory on
      every `cd` and recording a directory for every `ls`. */
  method Replay(commands: seq<Command>) returns (result: seq<Directory>)
    ensures result == Listed(commands)
  {
    var cwd: Path := [];
    result := [];
    for i := 0 to |commands|
      invariant cwd == CwdAfter(commands[..i])
      invariant result == Listed(commands[..i])
    {
      assert commands[..i + 1][..i] == commands[..i];
      match commands[i]
      case Ls(listings) =>
        var localSize := LocalSize(listings);
        result := result + [Directory(cwd, listings, localSize)];
      case Cd(dir) =>
        if dir == ".." {
          cwd := Pop(cwd);
        } else {
          cwd := Push(cwd, dir);
        }
    }
    assert commands[..|commands|] == commands;
  }

  // ---------------------------------------------------------------------------
  // Combined sizes

  /** The `fs` map of `calc_combined_sizes`: every directory under its own
      path; of two directories with the same path the later one is kept, as
      `collect` into a `HashMap` keeps the last value for a key. */
  function Index(dirs: seq<Directory>): (fs: map<Path, Directory>)
    ensures forall p :: p in fs ==> fs[p].path == p && fs[p] in dirs
    ensures forall d :: d in dirs ==> d.path in fs
  {
    if dirs == [] then map[]
    else Index(dirs[..|dirs| - 1])[dirs[|dirs| - 1].path := dirs[|dirs| - 1]]
  }

  /** A directory listed after every other directory with its path is the
      one kept. */
  lemma {:induction false} IndexKeepsLast(dirs: seq<Directory>, i: nat)
    requires i < |dirs|
    requires forall j :: i < j < |dirs| ==> dirs[j].path != dirs[i].path
    ensures Index(dirs)[dirs[i].path] == dirs[i]
  {
    var init := dirs[..|dirs| - 1];
    if i < |dirs| - 1 {
      IndexKeepsLast(init, i);
    }
  }

  /** `calc_combined` on `d` returns within `depth` nested calls: every
      listed subdirectory that `fs` holds returns within one call fewer.
      The source does not guard against a listing that leads back to a
      directory being summed, so its callers must rule that out. */
  ghost predicate Finite(fs: map<Path, Directory>, d: Directory, depth: nat)
    decreases depth, 0
  {
    depth > 0 && SubdirsFinite(fs, d.path, d.listings, depth - 1)
  }

  ghost predicate SubdirsFinite(fs: map<Path, Directory>, path: Path, listings: seq<Listing>, depth: nat)
    decreases depth, 1
  {
    forall s :: Dir(s) in listings && Push(path, s) in fs ==> Finite(fs, fs[Push(path, s)], depth)
  }

  /** `calc_combined`: the directory's local size plus the combined sizes of
      the subdirectories it lists; a subdirectory missing from `fs` is the
      `expect` panic. (The source's `calced` argument is never read.) */
  function CombinedSize(fs: map<Path, Directory>, d: Directory, ghost depth: nat): (r: Result<nat, Error>)
    requires Finite(fs, d, depth)
    ensures r.Ok? ==> r.value >= d.localSize
    ensures r.Err? ==> r == Err(MissingDirectory)
    decreases depth, 0, 0
  {
    var subdirs :- SubdirTotal(fs, d.path, d.listings, depth - 1);
    Ok(d.localSize + subdirs)
  }

  /** The `filter_map`/`sum` of `calc_combined` over the entries of one listing. */
  function SubdirTotal(fs: map<Path, Directory>, path: Path, listings: seq<Listing>, ghost depth: nat)
    : (r: Result<nat, Error>)
    requires SubdirsFinite(fs, path, listings, depth)
    ensures r.Err? ==> r == Err(MissingDirectory)
    ensures r.Err? <==> exists s :: Dir(s) in listings && !SubdirFound(fs, path, s, depth)
    ensures r.Ok? ==> forall s :: Dir(s) in listings ==>
      SubdirFound(fs, path, s, depth) && CombinedSize(fs, fs[Push(path, s)], depth).value <= r.value
    decreases depth, 1, |listings|
  {
    if listings == [] then Ok(0)
    else
      assert forall s :: Dir(s) in listings[1..] ==> Dir(s) in listings;
      var first :- match listings[0]
        case File(_, _) => Ok(0)
        case Dir(s) =>
          if Push(path, s) in fs then CombinedSize(fs, fs[Push(path, s)], depth)
          else Err(MissingDirectory);
      var rest :- SubdirTotal(fs, path, listings[1..], depth);
      Ok(first + rest)
  }

  /** The subdirectory `s` of `path` is in `fs` and its combined size has no
      missing directory beneath it. */
  ghost predicate SubdirFound(fs: map<Path, Directory>, path: Path, s: string, depth: nat)
    requires SubdirsFinite(fs, path, [Dir(s)], depth)
    decreases depth, 0, 1
  {
    Push(path, s) in fs && CombinedSize(fs, fs[Push(path, s)], depth).Ok?
  }

  /** The ghost bound plays no part in the result. */
  lemma {:induction false} DepthIrrelevant(fs: map<Path, Directory>, d: Directory, k1: nat, k2: nat)
    requires Finite(fs, d, k1) && Finite(fs, d, k2)
    ensures CombinedSize(fs, d, k1) == CombinedSize(fs, d, k2)
    decreases k1, 0
  {
    SubdirDepthIrrelevant(fs, d.path, d.listings, k1 - 1, k2 - 1);
  }

  lemma {:induction false} SubdirDepthIrrelevant(fs: map<Path, Directory>, path: Path, listings: seq<Listing>, k1: nat, k2: nat)
    requires SubdirsFinite(fs, path, listings, k1) && SubdirsFinite(fs, path, listings, k2)
    ensures SubdirTotal(fs, path, listings, k1) == SubdirTotal(fs, path, listings, k2)
    decreases k1, 1, |listings|
  {
    if listings != [] {
      assert forall s :: Dir(s) in listings[1..] ==> Dir(s) in listings;
      if listings[0].Dir? && Push(path, listings[0].name) in fs {
        DepthIrrelevant(fs, fs[Push(path, listings[0].name)], k1, k2);
      }
      SubdirDepthIrrelevant(fs, path, listings[1..], k1, k2);
    }
  }

  /** When no listed subdirectory name is absolute, every step of
      `calc_combined` goes one component deeper, so the recursion ends once
      it is past the longest path in `fs`. */
  lemma {:induction false} RelativeNamesFinite(fs: map<Path, Directory>, d: Directory, bound: nat, depth: nat)
    requires forall p :: p in fs ==> fs[p].path == p && |p| <= bound
    requires forall p, s :: p in fs && Dir(s) in fs[p].listings ==> Relative(s)
    requires forall s :: Dir(s) in d.listings ==> Relative(s)
    requires |d.path| <= bound && depth >= bound + 1 - |d.path|
    ensures Finite(fs, d, depth)
    decreases bound - |d.path|
  {
    forall s | Dir(s) in d.listings && Push(d.path, s) in fs
      ensures Finite(fs, fs[Push(d.path, s)], depth - 1)
    {
      var sub := fs[Push(d.path, s)];
      PushExtends(d.path, s);
      assert |sub.path| > |d.path|;
      RelativeNamesFinite(fs, sub, bound, depth - 1);
    }
  }

  ghost predicate AllFinite(fs: map<Path, Directory>, ds: seq<Directory>, depth: nat) {
    forall i :: 0 <= i < |ds| ==> Finite(fs, ds[i], depth)
  }

  /** The map `calc_combined_sizes` returns: each listed path with the
      combined size of the first directory listed under it. */
  function Sizes(fs: map<Path, Directory>, ds: seq<Directory>, ghost depth: nat): (r: Result<map<Path, nat>, Error>)
    requires AllFinite(fs, ds, depth)
    ensures r.Err? ==> r == Err(MissingDirectory)
  {
    if ds == [] then Ok(map[])
    else
      assert AllFinite(fs, ds[1..], depth);
      var rest :- Sizes(fs, ds[1..], depth);
      var size :- CombinedSize(fs, ds[0], depth);
      Ok(rest[ds[0].path := size])
  }

  /** The map fails exactly when some directory's combined size does, and
      otherwise holds exactly the listed paths. */
  lemma {:induction false} SizesShape(fs: map<Path, Directory>, ds: seq<Directory>, depth: nat)
    requires AllFinite(fs, ds, depth)
    ensures Sizes(fs, ds, depth).Err? <==> exists i :: 0 <= i < |ds| && CombinedSize(fs, ds[i], depth).Err?
    ensures Sizes(fs, ds, depth).Ok? ==> Sizes(fs, ds, depth).value.Keys == set d | d in ds :: d.path
  {
    if ds != [] {
      assert AllFinite(fs, ds[1..], depth);
      SizesShape(fs, ds[1..], depth);
      assert forall i :: 0 < i < |ds| ==> ds[i] == ds[1..][i - 1];
      assert forall d :: d in ds <==> d == ds[0] || d in ds[1..];
    }
  }

  /** A path's entry is the combined size of the first directory with it. */
  lemma {:induction false} SizesFirstListed(fs: map<Path, Directory>, ds: seq<Directory>, depth: nat, i: nat)
    requires AllFinite(fs, ds, depth) && Sizes(fs, ds, depth).Ok?
    requires i < |ds| && forall j :: 0 <= j < i ==> ds[j].path != ds[i].path
    ensures CombinedSize(fs, ds[i], depth).Ok? && ds[i].path in Sizes(fs, ds, depth).value
    ensures Sizes(fs, ds, depth).value[ds[i].path] == CombinedSize(fs, ds[i], depth).value
  {
    assert AllFinite(fs, ds[1..], depth);
    var rest := Sizes(fs, ds[1..], depth);
    var size := CombinedSize(fs, ds[0], depth);
    assert rest.Ok? && size.Ok?;
    assert Sizes(fs, ds, depth) == Ok(rest.value[ds[0].path := size.value]);
    if i > 0 {
      assert ds[1..][i - 1] == ds[i];
      SizesFirstListed(fs, ds[1..], depth, i - 1);
    }
  }

  /** `calc_combined_sizes`: fill the result map with one `calc_combined`
      per directory. The source visits the directories deepest first and,
      among equally deep ones, last listed first; this loop visits them
      last listed first. Both orders insert the directories that share a
      path in the same relative order, and inserting different keys in
      either order gives the same map. */
  method CombinedSizes(dirs: seq<Directory>, ghost depth: nat) returns (r: Result<map<Path, nat>, Error>)
    requires AllFinite(Index(dirs), dirs, depth)
    ensures r == Sizes(Index(dirs), dirs, depth)
  {
    var fs := Index(dirs);
    var result: map<Path, nat> := map[];
    for i := |dirs| downto 0
      invariant AllFinite(fs, dirs[i..], depth)
      invariant Sizes(fs, dirs[i..], depth) == Ok(result)
    {
      assert dirs[i..][1..] == dirs[i + 1..];
      var size := CombinedSize(fs, dirs[i], depth);
      if size.Err? {
        assert Sizes(fs, dirs, depth).Err? by {
          SizesShape(fs, dirs, depth);
        }
        return Err(MissingDirectory);
      }
      result := result[dirs[i].path := size.value];
    }
    assert dirs[0..] == dirs;
    return Ok(result);
  }

  // ---------------------------------------------------------------------------
  // Part one

  /** The share of one directory in `part_one`'s total: its size when that
      is below 100000. */
  function Small(size: nat): nat {
    if size < 100_000 then size else 0
  }

  /** The `filter_map`/`sum` of `part_one` over the entries of `sizes` whose
      paths are in `keys`, taken in no particular order. */
  ghost function SmallTotal(sizes: map<Path, nat>, keys: set<Path>): nat
    requires keys <= sizes.Keys
    decreases keys
  {
    if keys == {} then 0
    else
      var p :| p in keys;
      Small(sizes[p]) + SmallTotal(sizes, keys - {p})
  }

  /** The total does not depend on the order: any entry can be taken first. */
  lemma {:induction false} SmallTotalTake(sizes: map<Path, nat>, keys: set<Path>, p: Path)
    requires keys <= sizes.Keys && p in keys
    ensures SmallTotal(sizes, keys) == Small(sizes[p]) + SmallTotal(sizes, keys - {p})
    decreases keys
  {
    var q :| q in keys && SmallTotal(sizes, keys) == Small(sizes[q]) + SmallTotal(sizes, keys - {q});
    if q != p {
      SmallTotalTake(sizes, keys - {q}, p);
      SmallTotalTake(sizes, keys - {p}, q);
      assert keys - {q} - {p} == keys - {p} - {q};
    }
  }

  /** Summing the small sizes of a map, one entry at a time. */
  method TotalBelow(sizes: map<Path, nat>) returns (total: nat)
    ensures total == SmallTotal(sizes, sizes.Keys)
  {
    total := 0;
    var left := sizes.Keys;
    while left != {}
      invariant left <= sizes.Keys
      invariant total + SmallTotal(sizes, left) == SmallTotal(sizes, sizes.Keys)
      decreases left
    {
      var p :| p in left;
      SmallTotalTake(sizes, left, p);
      if sizes[p] < 100_000 {
        total := total + sizes[p];
      }
      left := left - {p};
    }
  }

  // ---------------------------------------------------------------------------
  // Part two

  const DiskSize: nat := 70_000_000
  const UpdateSize: nat := 30_000_000
  const Root: Path := ["/"]

  /** The space taken: the root's combined size, or 0 when the root was
      never listed (the `filter_map`/`sum` of `part_two` over the entry for
      `/`). */
  function Used(sizes: map<Path, nat>): nat {
    if Root in sizes then sizes[Root] else 0
  }

  /** `UPDATE_SIZE - (DISK_SIZE - used)`, with the two `u32` subtractions
      that would go below zero as errors. */
  function Needed(sizes: map<Path, nat>): (r: Result<nat, Error>)
    ensures r.Err? <==> Used(sizes) > DiskSize || DiskSize - Used(sizes) > UpdateSize
  {
    var used := Used(sizes);
    if used > DiskSize then Err(DiskOverfull)
    else if DiskSize - used > UpdateSize then Err(EnoughSpace)
    else Ok(UpdateSize - (DiskSize - used))
  }

  /** Deleting a directory larger than the needed space leaves more free
      space than the update takes, and one no larger does not. */
  lemma DeletionFreesEnough(sizes: map<Path, nat>, size: nat)
    requires Needed(sizes).Ok?
    ensures size > Needed(sizes).value <==> DiskSize - Used(sizes) + size > UpdateSize
  {
  }

  /** `v` is the smallest size in `sizes` above `needed`. */
  ghost predicate SmallestAbove(sizes: map<Path, nat>, needed: nat, v: nat) {
    && v > needed
    && (exists p :: p in sizes && sizes[p] == v)
    && forall p :: p in sizes && sizes[p] > needed ==> v <= sizes[p]
  }

  /** The `filter`, `sorted_by_key` and `next` of `part_two`: the smallest
      size above `needed`, if there is one. */
  method FindSmallestAbove(sizes: map<Path, nat>, needed: nat) returns (r: Option<nat>)
    ensures r.None? <==> forall p :: p in sizes ==> sizes[p] <= needed
    ensures r.Some? ==> SmallestAbove(sizes, needed, r.value)
  {
    r := None;
    var left := sizes.Keys;
    while left != {}
      invariant left <= sizes.Keys
      invariant r.None? <==> forall p :: p in sizes.Keys - left ==> sizes[p] <= needed
      invariant r.Some? ==> r.value > needed && exists p :: p in sizes && sizes[p] == r.value
      invariant r.Some? ==> forall p :: p in sizes.Keys - left && sizes[p] > needed ==> r.value <= sizes[p]
      decreases left
    {
      var p :| p in left;
      if sizes[p] > needed && (r.None? || sizes[p] < r.value) {
        r := Some(sizes[p]);
      }
      left := left - {p};
    }
  }

  // ---------------------------------------------------------------------------
  // The whole puzzle

  /** The directories a transcript lists, when it parses completely. */
  function Transcript(input: string): Result<seq<Directory>, Error> {
    match ParseInput(input)
    case None => Err(ParseFailed)
    case Some(parsed) =>
      if parsed.rest != [] then Err(Unparsed(parsed.rest)) else Ok(Listed(parsed.value))
  }

  /** What the source needs of its input and does not check: summing a
      directory never leads back into a directory being summed. */
  ghost predicate Terminates(input: string) {
    Transcript(input).Ok? ==>
      var dirs := Transcript(input).value;
      exists depth :: AllFinite(Index(dirs), dirs, depth)
  }

  /** The map `part_one` and `part_two` work on. */
  ghost function SizesOf(input: string): Result<map<Path, nat>, Error>
    requires Terminates(input)
  {
    var dirs :- Transcript(input);
    var depth :| AllFinite(Index(dirs), dirs, depth);
    Sizes(Index(dirs), dirs, depth)
  }

  lemma {:induction false} SizesDepthIrrelevant(fs: map<Path, Directory>, ds: seq<Directory>, k1: nat, k2: nat)
    requires AllFinite(fs, ds, k1) && AllFinite(fs, ds, k2)
    ensures Sizes(fs, ds, k1) == Sizes(fs, ds, k2)
  {
    if ds != [] {
      assert AllFinite(fs, ds[1..], k1) && AllFinite(fs, ds[1..], k2);
      SizesDepthIrrelevant(fs, ds[1..], k1, k2);
      DepthIrrelevant(fs, ds[0], k1, k2);
    }
  }

  lemma SizesOfIs(input: string, dirs: seq<Directory>, depth: nat)
    requires Transcript(input) == Ok(dirs) && AllFinite(Index(dirs), dirs, depth)
    ensures Terminates(input) && SizesOf(input) == Sizes(Index(dirs), dirs, depth)
  {
    var k :| AllFinite(Index(dirs), dirs, k) && SizesOf(input) == Sizes(Index(dirs), dirs, k);
    SizesDepthIrrelevant(Index(dirs), dirs, k, depth);
  }

  /** The longest path among the directories. */
  function LongestPath(dirs: seq<Directory>): (n: nat)
    ensures forall d :: d in dirs ==> |d.path| <= n
  {
    if dirs == [] then 0
    else
      var n := LongestPath(dirs[1..]);
      if |dirs[0].path| > n then |dirs[0].path| else n
  }

  /** Directories whose listings name no subdirectory by an absolute name
      can all be summed: every step goes one component deeper. */
  lemma RelativeListingsFinite(dirs: seq<Directory>)
    requires forall d, s :: d in dirs && Dir(s) in d.listings ==> Relative(s)
    ensures AllFinite(Index(dirs), dirs, LongestPath(dirs) + 1)
  {
    var bound := LongestPath(dirs);
    var fs := Index(dirs);
    assert forall p :: p in fs ==> fs[p].path == p && |p| <= bound;
    assert forall p, s :: p in fs && Dir(s) in fs[p].listings ==> Relative(s);
    assert forall i :: 0 <= i < |dirs| ==>
      |dirs[i].path| <= bound && forall s :: Dir(s) in dirs[i].listings ==> Relative(s)
    by {
      forall i | 0 <= i < |dirs|
        ensures |dirs[i].path| <= bound && forall s :: Dir(s) in dirs[i].listings ==> Relative(s)
      {
        assert dirs[i] in dirs;
      }
    }
    EachFinite(fs, dirs, bound);
  }

  /** `RelativeNamesFinite` for every directory of a list. */
  lemma EachFinite(fs: map<Path, Directory>, dirs: seq<Directory>, bound: nat)
    requires forall p :: p in fs ==> fs[p].path == p && |p| <= bound
    requires forall p, s :: p in fs && Dir(s) in fs[p].listings ==> Relative(s)
    requires forall i :: 0 <= i < |dirs| ==>
      |dirs[i].path| <= bound && forall s :: Dir(s) in dirs[i].listings ==> Relative(s)
    ensures AllFinite(fs, dirs, bound + 1)
  {
    forall i | 0 <= i < |dirs|
      ensures Finite(fs, dirs[i], bound + 1)
    {
      RelativeNamesFinite(fs, dirs[i], bound, bound + 1);
    }
  }

  /** A transcript whose listings name no subdirectory by an absolute name
      meets the source's unchecked demand. */
  lemma RelativeListingsTerminate(input: string)
    requires Transcript(input).Ok?
    requires forall d, s :: d in Transcript(input).value && Dir(s) in d.listings ==> Relative(s)
    ensures Terminates(input)
  {
    RelativeListingsFinite(Transcript(input).value);
  }

  /** `part_one`: the total of the combined sizes below 100000. */
  method PartOne(input: string) returns (r: Result<nat, Error>)
    requires Terminates(input)
    ensures var sizes := SizesOf(input);
      r == if sizes.Err? then Err(sizes.error) else Ok(SmallTotal(sizes.value, sizes.value.Keys))
  {
    var parsed := ParseInput(input);
    if parsed.None? {
      return Err(ParseFailed);
    }
    if parsed.value.rest != [] {
      return Err(Unparsed(parsed.value.rest));
    }
    var dirs := Replay(parsed.value.value);
    ghost var depth :| AllFinite(Index(dirs), dirs, depth);
    SizesOfIs(input, dirs, depth);
    var combined := CombinedSizes(dirs, depth);
    if combined.Err? {
      return Err(combined.error);
    }
    var total := TotalBelow(combined.value);
    return Ok(total);
  }

  /** `part_two`: the smallest combined size above the space still needed. */
  method PartTwo(input: string) returns (r: Result<nat, Error>)
    requires Terminates(input)
    ensures SizesOf(input).Err? ==> r == Err(SizesOf(input).error)
    ensures SizesOf(input).Ok? ==>
      var sizes := SizesOf(input).value;
      match Needed(sizes)
      case Err(e) => r == Err(e)
      case Ok(needed) =>
        && (r.Ok? || r == Err(NoCandidate))
        && (r.Err? <==> forall p :: p in sizes ==> sizes[p] <= needed)
        && (r.Ok? ==> SmallestAbove(sizes, needed, r.value))
  {
    var parsed := ParseInput(input);
    if parsed.None? {
      return Err(ParseFailed);
    }
    if parsed.value.rest != [] {
      return Err(Unparsed(parsed.value.rest));
    }
    var dirs := Replay(parsed.value.value);
    ghost var depth :| AllFinite(Index(dirs), dirs, depth);
    SizesOfIs(input, dirs, depth);
    var combined := CombinedSizes(dirs, depth);
    if combined.Err? {
      return Err(combined.error);
    }
    var needed := Needed(combined.value);
    if needed.Err? {
      return Err(needed.error);
    }
    var smallest := FindSmallestAbove(combined.value, needed.value);
    if smallest.None? {
      return Err(NoCandidate);
    }
    return Ok(smallest.value);
  }

  // ---------------------------------------------------------------------------
  // The published example

  function RootListing(): seq<Listing> {
    [Dir("a"), File(14848514, "b.txt"), File(8504156, "c.dat"), Dir("d")]
  }

  function AListing(): seq<Listing> {
    [Dir("e"), File(29116, "f"), File(2557, "g"), File(62596, "h.lst")]
  }

  function EListing(): seq<Listing> {
    [File(584, "i")]
  }

  function DListing(): seq<Listing> {
    [File(4060174, "j"), File(8033020, "d.log"), File(5626152, "d.ext"), File(7214296, "k")]
  }

  function ExampleCommands(): seq<Command> {
    [ Cd("/"), Ls(RootListing()), Cd("a"), Ls(AListing()), Cd("e"), Ls(EListing()),
      Cd(".."), Cd(".."), Cd("d"), Ls(DListing()) ]
  }

  function ExampleDirs(): seq<Directory> {
    [ Directory(["/"], RootListing(), 23352670),
      Directory(["/", "a"], AListing(), 94269),
      Directory(["/", "a", "e"], EListing(), 584),
      Directory(["/", "d"], DListing(), 24933642) ]
  }

  lemma ExampleLocalSizes()
    ensures LocalSize(RootListing()) == 23352670 && LocalSize(AListing()) == 94269
    ensures LocalSize(EListing()) == 584 && LocalSize(DListing()) == 24933642
  {
    assert RootListing()[1..][1..][1..][1..] == [];
    assert AListing()[1..][1..][1..][1..] == [];
    assert EListing()[1..] == [];
    assert DListing()[1..][1..][1..][1..] == [];
  }

  lemma StepCd(commands: seq<Command>, dir: string)
    ensures CwdAfter(commands + [Cd(dir)]) == ChangeDir(CwdAfter(commands), dir)
    ensures Listed(commands + [Cd(dir)]) == Listed(commands)
  {
    assert (commands + [Cd(dir)])[..|commands|] == commands;
  }

  lemma StepLs(commands: seq<Command>, listings: seq<Listing>)
    ensures CwdAfter(commands + [Ls(listings)]) == CwdAfter(commands)
    ensures Listed(commands + [Ls(listings)])
         == Listed(commands) + [Directory(CwdAfter(commands), listings, LocalSize(listings))]
  {
    assert (commands + [Ls(listings)])[..|commands|] == commands;
  }

  /** `cd name` for a one-component name goes one level down. */
  lemma CdInto(commands: seq<Command>, name: string)
    requires Relative(name) && '/' !in name && name != ".."
    ensures CwdAfter(commands + [Cd(name)]) == CwdAfter(commands) + [name]
    ensures Listed(commands + [Cd(name)]) == Listed(commands)
  {
    StepCd(commands, name);
    OneComponent(name);
  }

  /** `cd ..` below the root goes one level up. */
  lemma CdUp(commands: seq<Command>)
    requires |CwdAfter(commands)| >= 2
    ensures CwdAfter(commands + [Cd("..")]) == CwdAfter(commands)[..|CwdAfter(commands)| - 1]
    ensures Listed(commands + [Cd("..")]) == Listed(commands)
  {
    StepCd(commands, "..");
  }

  /** `cd /` goes to the root from anywhere. */
  lemma PushRoot(path: Path)
    ensures Push(path, "/") == ["/"]
  {
    assert IndexOf("/", '/') == Some(0);
    assert "/"[1..] == [];
  }

  /** `cd /` then `ls` lists the root. */
  lemma CdRootLs(commands: seq<Command>, listings: seq<Listing>)
    ensures CwdAfter(commands + [Cd("/"), Ls(listings)]) == ["/"]
    ensures Listed(commands + [Cd("/"), Ls(listings)])
         == Listed(commands) + [Directory(["/"], listings, LocalSize(listings))]
  {
    StepCd(commands, "/");
    PushRoot(CwdAfter(commands));
    StepLs(commands + [Cd("/")], listings);
    assert commands + [Cd("/")] + [Ls(listings)] == commands + [Cd("/"), Ls(listings)];
  }

  /** `cd name` then `ls` lists the directory one level down. */
  lemma CdIntoLs(commands: seq<Command>, name: string, listings: seq<Listing>)
    requires Relative(name) && '/' !in name && name != ".."
    ensures var after := commands + [Cd(name), Ls(listings)];
      && CwdAfter(after) == CwdAfter(commands) + [name]
      && Listed(after) == Listed(commands) + [Directory(CwdAfter(commands) + [name], listings, LocalSize(listings))]
  {
    CdInto(commands, name);
    StepLs(commands + [Cd(name)], listings);
    assert commands + [Cd(name)] + [Ls(listings)] == commands + [Cd(name), Ls(listings)];
  }

  /** `cd ..` twice from at least three components down goes up two levels. */
  lemma UpTwice(commands: seq<Command>)
    requires |CwdAfter(commands)| >= 3
    ensures var cwd := CwdAfter(commands);
      var after := commands + [Cd(".."), Cd("..")];
      CwdAfter(after) == cwd[..|cwd| - 2] && Listed(after) == Listed(commands)
  {
    var cwd := CwdAfter(commands);
    CdUp(commands);
    var c1 := commands + [Cd("..")];
    assert CwdAfter(c1) == cwd[..|cwd| - 1];
    CdUp(c1);
    assert CwdAfter(c1)[..|CwdAfter(c1)| - 1] == cwd[..|cwd| - 2];
    assert c1 + [Cd("..")] == commands + [Cd(".."), Cd("..")];
  }

  /** `cd ..` twice, `cd name`, then `ls`, from at least two levels down. */
  lemma UpTwiceLs(commands: seq<Command>, name: string, listings: seq<Listing>)
    requires |CwdAfter(commands)| >= 3
    requires Relative(name) && '/' !in name && name != ".."
    ensures var cwd := CwdAfter(commands);
      Listed(commands + [Cd(".."), Cd(".."), Cd(name), Ls(listings)])
        == Listed(commands) + [Directory(cwd[..|cwd| - 2] + [name], listings, LocalSize(listings))]
  {
    UpTwice(commands);
    var c2 := commands + [Cd(".."), Cd("..")];
    CdIntoLs(c2, name, listings);
    assert c2 + [Cd(name), Ls(listings)] == commands + [Cd(".."), Cd(".."), Cd(name), Ls(listings)];
  }

  /** The example's `cd a` and `ls`. */
  lemma ExampleIntoA(c: seq<Command>)
    requires CwdAfter(c) == ["/"] && Listed(c) == ExampleDirs()[..1]
    ensures var c' := c + [Cd("a"), Ls(AListing())];
      CwdAfter(c') == ["/", "a"] && Listed(c') == ExampleDirs()[..2]
  {
    var ds := ExampleDirs();
    ExampleLocalSizes();
    CdIntoLs(c, "a", AListing());
    assert CwdAfter(c) + ["a"] == ["/", "a"];
    assert Directory(["/", "a"], AListing(), LocalSize(AListing())) == ds[1];
    assert ds[..1] + [ds[1]] == ds[..2];
  }

  /** The example's `cd e` and `ls`. */
  lemma ExampleIntoE(c: seq<Command>)
    requires CwdAfter(c) == ["/", "a"] && Listed(c) == ExampleDirs()[..2]
    ensures var c' := c + [Cd("e"), Ls(EListing())];
      CwdAfter(c') == ["/", "a", "e"] && Listed(c') == ExampleDirs()[..3]
  {
    var ds := ExampleDirs();
    ExampleLocalSizes();
    CdIntoLs(c, "e", EListing());
    assert CwdAfter(c) + ["e"] == ["/", "a", "e"];
    assert Directory(["/", "a", "e"], EListing(), LocalSize(EListing())) == ds[2];
    assert ds[..2] + [ds[2]] == ds[..3];
  }

  /** The example's walk down from the root: `cd a`, `ls`, `cd e`, `ls`. */
  lemma ExampleDescent(c: seq<Command>)
    requires CwdAfter(c) == ["/"] && Listed(c) == ExampleDirs()[..1]
    ensures var c' := c + [Cd("a"), Ls(AListing()), Cd("e"), Ls(EListing())];
      CwdAfter(c') == ["/", "a", "e"] && Listed(c') == ExampleDirs()[..3]
  {
    ExampleIntoA(c);
    var c2 := c + [Cd("a"), Ls(AListing())];
    ExampleIntoE(c2);
    assert c2 + [Cd("e"), Ls(EListing())] == c + [Cd("a"), Ls(AListing()), Cd("e"), Ls(EListing())];
  }

  /** The example's climb back and final listing: `cd ..` twice, `cd d`, `ls`. */
  lemma ExampleReturn(c: seq<Command>)
    requires CwdAfter(c) == ["/", "a", "e"] && Listed(c) == ExampleDirs()[..3]
    ensures Listed(c + [Cd(".."), Cd(".."), Cd("d"), Ls(DListing())]) == ExampleDirs()
  {
    var ds := ExampleDirs();
    ExampleLocalSizes();
    UpTwiceLs(c, "d", DListing());
    assert ["/", "a", "e"][..1] + ["d"] == ["/", "d"];
    assert ds[..3] + [ds[3]] == ds;
  }

  /** Replaying the example's commands lists its four directories. */
  lemma ExampleReplay()
    ensures Listed(ExampleCommands()) == ExampleDirs()
  {
    var c0: seq<Command> := [];
    var c := c0 + [Cd("/"), Ls(RootListing())];
    var c' := c + [Cd("a"), Ls(AListing()), Cd("e"), Ls(EListing())];
    assert c' + [Cd(".."), Cd(".."), Cd("d"), Ls(DListing())] == ExampleCommands();
    ExampleLocalSizes();
    CdRootLs(c0, RootListing());
    assert Listed(c) == ExampleDirs()[..1];
    ExampleDescent(c);
    ExampleReturn(c');
  }

  /** Entries that name no subdirectory add nothing to `calc_combined`. */
  lemma {:induction false} FilesOnly(fs: map<Path, Directory>, path: Path, listings: seq<Listing>, depth: nat)
    requires forall i :: 0 <= i < |listings| ==> listings[i].File?
    ensures SubdirsFinite(fs, path, listings, depth)
    ensures SubdirTotal(fs, path, listings, depth) == Ok(0)
  {
    if listings != [] {
      FilesOnly(fs, path, listings[1..], depth);
    }
  }

  /** `fs` holds the example's directories under their paths. */
  ghost predicate HoldsExample(fs: map<Path, Directory>) {
    var ds := ExampleDirs();
    && ["/"] in fs && fs[["/"]] == ds[0]
    && ["/", "a"] in fs && fs[["/", "a"]] == ds[1]
    && ["/", "a", "e"] in fs && fs[["/", "a", "e"]] == ds[2]
    && ["/", "d"] in fs && fs[["/", "d"]] == ds[3]
  }

  lemma ExampleIndexAt(i: nat)
    requires i < 4
    ensures ExampleDirs()[i].path in Index(ExampleDirs())
    ensures Index(ExampleDirs())[ExampleDirs()[i].path] == ExampleDirs()[i]
  {
    IndexKeepsLast(ExampleDirs(), i);
  }

  lemma ExampleIndex()
    ensures HoldsExample(Index(ExampleDirs()))
  {
    ExampleIndexAt(0);
    ExampleIndexAt(1);
    ExampleIndexAt(2);
    ExampleIndexAt(3);
  }

  lemma ExampleLongestPath()
    ensures LongestPath(ExampleDirs()) == 3
  {
    var ds := ExampleDirs();
    assert ds[1..][1..][1..][1..] == [];
  }

  lemma ExampleE(fs: map<Path, Directory>, k: nat)
    requires HoldsExample(fs) && Finite(fs, ExampleDirs()[2], k)
    ensures CombinedSize(fs, ExampleDirs()[2], k) == Ok(584)
  {
    FilesOnly(fs, ["/", "a", "e"], EListing(), k - 1);
  }

  lemma ExampleD(fs: map<Path, Directory>, k: nat)
    requires HoldsExample(fs) && Finite(fs, ExampleDirs()[3], k)
    ensures CombinedSize(fs, ExampleDirs()[3], k) == Ok(24933642)
  {
    FilesOnly(fs, ["/", "d"], DListing(), k - 1);
  }

  lemma ExampleA(fs: map<Path, Directory>, k: nat)
    requires HoldsExample(fs) && Finite(fs, ExampleDirs()[1], k)
    ensures CombinedSize(fs, ExampleDirs()[1], k) == Ok(94853)
  {
    var path := ["/", "a"];
    assert Push(path, "e") == ["/", "a", "e"];
    ExampleE(fs, k - 1);
    FilesOnly(fs, path, AListing()[1..], k - 1);
    assert SubdirTotal(fs, path, AListing(), k - 1) == Ok(584);
  }

  lemma ExampleRoot(fs: map<Path, Directory>, k: nat)
    requires HoldsExample(fs) && Finite(fs, ExampleDirs()[0], k)
    ensures CombinedSize(fs, ExampleDirs()[0], k) == Ok(48381165)
  {
    var path, l := ["/"], RootListing();
    assert Push(path, "a") == ["/", "a"] && Push(path, "d") == ["/", "d"];
    ExampleA(fs, k - 1);
    ExampleD(fs, k - 1);
    FilesOnly(fs, path, l[1..][1..][1..][1..], k - 1);
    assert SubdirTotal(fs, path, l[1..][1..][1..], k - 1) == Ok(24933642);
    assert SubdirTotal(fs, path, l[1..][1..], k - 1) == Ok(24933642);
    assert SubdirTotal(fs, path, l[1..], k - 1) == Ok(24933642);
    assert SubdirTotal(fs, path, l, k - 1) == Ok(94853 + 24933642);
  }

  /** The combined sizes of the example's directories. */
  function ExampleSizes(): map<Path, nat> {
    map[["/", "d"] := 24933642][["/", "a", "e"] := 584][["/", "a"] := 94853][["/"] := 48381165]
  }

  /** One more directory in front: its entry overrides the rest's. */
  lemma SizesCons(fs: map<Path, Directory>, d: Directory, ds: seq<Directory>, depth: nat, size: nat)
    requires AllFinite(fs, [d] + ds, depth) && Finite(fs, d, depth)
    requires CombinedSize(fs, d, depth) == Ok(size)
    ensures AllFinite(fs, ds, depth)
    ensures Sizes(fs, [d] + ds, depth)
         == if Sizes(fs, ds, depth).Ok? then Ok(Sizes(fs, ds, depth).value[d.path := size]) else Err(MissingDirectory)
  {
    assert ([d] + ds)[1..] == ds;
    assert forall i :: 0 <= i < |ds| ==> ds[i] == ([d] + ds)[i + 1];
  }

  lemma ExampleSizesOf(fs: map<Path, Directory>, k: nat)
    requires HoldsExample(fs) && AllFinite(fs, ExampleDirs(), k)
    ensures Sizes(fs, ExampleDirs(), k) == Ok(ExampleSizes())
  {
    var ds := ExampleDirs();
    var d0, d1, d2, d3 := ds[0], ds[1], ds[2], ds[3];
    ExampleRoot(fs, k);
    ExampleA(fs, k);
    ExampleE(fs, k);
    ExampleD(fs, k);
    assert ds == [d0] + ([d1] + ([d2] + ([d3] + [])));
    SizesCons(fs, d0, [d1] + ([d2] + ([d3] + [])), k, 48381165);
    SizesCons(fs, d1, [d2] + ([d3] + []), k, 94853);
    SizesCons(fs, d2, [d3] + [], k, 584);
    SizesCons(fs, d3, [], k, 24933642);
  }

  lemma ExampleRelative()
    ensures forall d, s :: d in ExampleDirs() && Dir(s) in d.listings ==> Relative(s)
  {
    var ds := ExampleDirs();
    forall d, s | d in ds && Dir(s) in d.listings
      ensures Relative(s)
    {
      var i :| 0 <= i < 4 && ds[i] == d;
      var j :| 0 <= j < |d.listings| && d.listings[j] == Dir(s);
      assert i == 0 || i == 1;
      assert s == "a" || s == "d" || s == "e";
    }
  }

  /** The example's directories, summed: `/` holds 48381165, `/a` 94853,
      `/a/e` 584 and `/d` 24933642. */
  lemma ExampleCombined()
    ensures AllFinite(Index(ExampleDirs()), ExampleDirs(), LongestPath(ExampleDirs()) + 1)
    ensures Sizes(Index(ExampleDirs()), ExampleDirs(), LongestPath(ExampleDirs()) + 1) == Ok(ExampleSizes())
  {
    ExampleIndex();
    ExampleRelative();
    RelativeListingsFinite(ExampleDirs());
    ExampleSizesOf(Index(ExampleDirs()), LongestPath(ExampleDirs()) + 1);
  }

  /** The example's answer to part one: 95437. */
  lemma ExamplePartOne()
    ensures SmallTotal(ExampleSizes(), ExampleSizes().Keys) == 95437
  {
    var m := ExampleSizes();
    var k0 := m.Keys;
    SmallTotalTake(m, k0, ["/"]);
    var k1 := k0 - {["/"]};
    SmallTotalTake(m, k1, ["/", "a"]);
    var k2 := k1 - {["/", "a"]};
    SmallTotalTake(m, k2, ["/", "a", "e"]);
    var k3 := k2 - {["/", "a", "e"]};
    SmallTotalTake(m, k3, ["/", "d"]);
    assert k3 - {["/", "d"]} == {};
  }

  /** The example's answer to part two: 24933642. */
  lemma ExamplePartTwo()
    ensures Needed(ExampleSizes()) == Ok(8381165)
    ensures SmallestAbove(ExampleSizes(), 8381165, 24933642)
  {
    var m := ExampleSizes();
    assert m[["/", "d"]] == 24933642;
  }
}

/** lib/flag.c: '@file' arguments are replaced by what the file holds, and a command line too
    long for DOS is cut and its end moved to such a file. */
module CommandLines {
  import opened Options
  import opened Seqs
  import opened ResponseFiles

  const MAX_COMMAND_LINE_LEN: nat := 126

  // ------------------------------------------------------------------------------------
  // Expanding.

  predicate StartsWith(a: CString, c: char) { a != "" && a[0] == c }

  function Named(a: CString): CString
    requires a != ""
  {
    a[1..]
  }

  /** The arguments with every '@file' among them replaced by that file's, which are not
      expanded again. The first file that is missing or overruns the reader ends it. */
  function Expanded(args: seq<CString>, files: map<CString, string>): Result<seq<CString>> {
    if args == [] then Success([])
    else if !StartsWith(args[0], '@') then Prepend([args[0]], Expanded(args[1..], files))
    else if Named(args[0]) !in files then FileNotFound(Named(args[0]))
    else Joined(ReadBack(files[Named(args[0])]), Expanded(args[1..], files))
  }

  function Prepend(front: seq<CString>, r: Result<seq<CString>>): Result<seq<CString>> {
    if r.Success? then Success(front + r.value) else r
  }

  function Joined(front: Result<seq<CString>>, r: Result<seq<CString>>): Result<seq<CString>> {
    if front.Success? then Prepend(front.value, r) else front
  }

  predicate Missing(a: CString, files: map<CString, string>) {
    StartsWith(a, '@') && Named(a) !in files
  }

  predicate Overruns(a: CString, files: map<CString, string>) {
    StartsWith(a, '@') && Named(a) in files && ReadBack(files[Named(a)]) == Overrun
  }

  /** The first reference whose file is missing or overruns the reader ends the expansion, and
      with its own error. */
  lemma {:induction false} FirstBadFile(args: seq<CString>, files: map<CString, string>, k: nat)
    requires k < |args| && (Missing(args[k], files) || Overruns(args[k], files))
    requires forall j :: 0 <= j < k ==> !Missing(args[j], files) && !Overruns(args[j], files)
    ensures Expanded(args, files) == if Missing(args[k], files) then FileNotFound(Named(args[k])) else Overrun
  {
    if k > 0 {
      assert forall j :: 0 <= j < k - 1 ==> args[1..][j] == args[j + 1];
      FirstBadFile(args[1..], files, k - 1);
    }
  }

  /** Without such a reference the expansion succeeds. */
  lemma {:induction false} NoBadFile(args: seq<CString>, files: map<CString, string>)
    requires forall a :: a in args ==> !Missing(a, files) && !Overruns(a, files)
    ensures Expanded(args, files).Success?
  {
    if args != [] {
      assert args[0] in args;
      NoBadFile(args[1..], files);
    }
  }

  /** The program's own name is never expanded. */
  function ExpandedCommandLine(args: seq<CString>, files: map<CString, string>): Result<seq<CString>> {
    if args == [] then Success([]) else Prepend([args[0]], Expanded(args[1..], files))
  }

  lemma PrependTwice(a: seq<CString>, b: seq<CString>, r: Result<seq<CString>>)
    ensures Prepend(a, Prepend(b, r)) == Prepend(a + b, r)
  {
    if r.Success? { assert a + (b + r.value) == (a + b) + r.value; }
  }

  method ReadFile(content: string) returns (r: Result<seq<CString>>)
    ensures r == ReadBack(content)
  {
    var stream := new Stream(content);
    r := stream.ReadResponseFile();
  }

  method ExpandResponseArgs(arguments: seq<CString>, files: map<CString, string>) returns (r: Result<seq<CString>>)
    ensures r == ExpandedCommandLine(arguments, files)
  {
    var args := arguments;
    var argc := |args|;
    if argc == 0 { return Success([]); }
    var i := 1;
    assert args[..1] == [args[0]];
    while i < argc
      invariant 1 <= i <= argc == |args|
      invariant ExpandedCommandLine(arguments, files) == Prepend(args[..i], Expanded(args[i..], files))
      decreases argc - i
    {
      ghost var done, a, rest := args[..i], args[i], args[i + 1..];
      assert args[i..][1..] == rest && args[i..][0] == a;
      if !StartsWith(args[i], '@') {
        PrependTwice(done, [a], Expanded(rest, files));
        assert args[..i + 1] == done + [a];
        i := i + 1;
        continue;
      }
      var name := Named(args[i]);
      if name !in files { return FileNotFound(name); }
      var read := ReadFile(files[name]);
      if !read.Success? { return read; }
      var words := read.value;
      PrependTwice(done, words, Expanded(rest, files));
      args := args[..i] + words + args[i + 1..];
      argc := argc + (|words| - 1);
      i := i + (|words| - 1) + 1;
      assert args[..i] == done + words && args[i..] == rest;
    }
    assert args[..i] == args && args[i..] == [] && args + [] == args;
    r := Success(args);
  }

  // ------------------------------------------------------------------------------------
  // Squashing.

  /** The room a command line takes: every argument and a space before it. */
  function Room(args: seq<CString>): nat {
    if args == [] then 0 else Room(args[..|args| - 1]) + 1 + |args[|args| - 1]|
  }

  /** What a 16-bit int keeps of x. */
  function Int16(x: int): (r: int)
    ensures -0x8000 <= r < 0x8000
    ensures -0x8000 <= x < 0x8000 ==> r == x
  {
    (x + 0x8000) % 0x1_0000 - 0x8000
  }

  lemma Int16Adds(x: int, y: int)
    ensures Int16(Int16(x) + y) == Int16(x + y)
  {
  }

  /** A place to cut: the argument there is an option and what stays seems to fit with the
      reference. */
  predicate CutsWell(args: seq<CString>, reference: CString, i: nat)
    requires i < |args|
  {
    StartsWith(args[i], '-') && Int16(Room(args[..i]) + 1 + |reference|) < MAX_COMMAND_LINE_LEN
  }

  /** A place cuts well exactly when there is a '-' and the line cut there sums to less than the
      limit: one that sums to the limit itself, which would do, is passed over. */
  lemma {:induction false} CutLeavesOneOver(args: seq<CString>, reference: CString, i: nat)
    requires i < |args|
    ensures CutsWell(args, reference, i) <==>
      args[i] != "" && args[i][0] == '-' && Int16(Room(CutAt(args, reference, i))) <= 125
  {
    RoomOfConcat(args[..i], reference);
  }

  /** A line of 126 characters is short, one of 127 is not. */
  lemma {:induction false} LimitIs126(args: seq<CString>)
    requires Room(args) < 0x8000
    ensures Int16(Room(args)) <= MAX_COMMAND_LINE_LEN <==> Room(args) <= 126
  {
  }

  /** No place after i cuts well. */
  ghost predicate NoneAfter(args: seq<CString>, reference: CString, i: nat) {
    forall j :: i < j < |args| && j > 1 ==> !CutsWell(args, reference, j)
  }

  /** The last place after the first argument that cuts well, or else the first argument. */
  ghost predicate IsCut(args: seq<CString>, reference: CString, i: nat) {
    && i < |args|
    && (i <= 1 ==> i == if |args| == 1 then 0 else 1)
    && (i > 1 ==> CutsWell(args, reference, i))
    && NoneAfter(args, reference, i)
  }

  lemma NoneAtEnd(args: seq<CString>, reference: CString)
    requires args != []
    ensures NoneAfter(args, reference, |args| - 1)
  {
  }

  lemma NotHere(args: seq<CString>, reference: CString, i: nat)
    requires 1 < i < |args| && NoneAfter(args, reference, i) && !CutsWell(args, reference, i)
    ensures NoneAfter(args, reference, i - 1)
  {
  }

  /** The argument list, the response file's name once it has one, and the disk. */
  class CommandLine {
    var args: seq<CString>
    var responseFileArg: Option<CString>
    var files: map<CString, string>

    constructor (args: seq<CString>, files: map<CString, string>)
      ensures this.args == args && responseFileArg == None && this.files == files
    {
      this.args := args;
      responseFileArg := None;
      this.files := files;
    }

    /** The sum is an int of 16 bits. */
    method Measure() returns (len: int)
      ensures len == Int16(Room(args))
    {
      len := 0;
      for i := 0 to |args|
        invariant len == Int16(Room(args[..i]))
      {
        RoomOneMore(args, i);
        Int16Adds(Room(args[..i]), 1 + |args[i]|);
        len := Int16(len + (1 + |args[i]|));
      }
      WholePrefix(args);
    }

    method FindCut(total: int, reference: CString) returns (i: nat)
      requires args != [] && total == Int16(Room(args) + |reference| + 1)
      ensures IsCut(args, reference, i)
    {
      var len := total;
      i := |args| - 1;
      WholePrefix(args);
      NoneAtEnd(args, reference);
      while i > 1
        invariant 0 <= i < |args|
        invariant i == 0 ==> |args| == 1
        invariant len == Int16(Room(args[..i + 1]) + |reference| + 1)
        invariant NoneAfter(args, reference, i)
      {
        OneLess(args, reference, i);
        len := Int16(len - (|args[i]| + 1));
        if StartsWith(args[i], '-') && len < MAX_COMMAND_LINE_LEN { return; }
        NotHere(args, reference, i);
        i := i - 1;
      }
    }

    ghost predicate Valid()
      reads this
    {
      responseFileArg.Some? ==> StartsWith(responseFileArg.value, '@')
    }

    /** The reference an earlier call chose, or else one made of `tmpName`. */
    function Reference(tmpName: CString): CString
      reads this
    {
      if responseFileArg.Some? then responseFileArg.value else "@" + tmpName
    }

    /** `tmpName` is what tmpnam would return. */
    method SquashToResponseFile(tmpName: CString)
      requires Valid()
      modifies this
      ensures Valid()
      ensures Int16(Room(old(args))) <= MAX_COMMAND_LINE_LEN ==>
        args == old(args) && files == old(files) && responseFileArg == old(responseFileArg)
      ensures Int16(Room(old(args))) > MAX_COMMAND_LINE_LEN ==>
        && responseFileArg == Some(old(Reference(tmpName)))
        && Squashed(old(args), old(files), old(Reference(tmpName)), args, files)
        && (old(responseFileArg) == None ==> responseFileArg.value == "@" + tmpName)
      ensures old(responseFileArg) != None ==> responseFileArg == old(responseFileArg)
    {
      var len := Measure();
      if len <= MAX_COMMAND_LINE_LEN { return; }
      if responseFileArg == None {
        responseFileArg := Some("@" + tmpName);
      }
      var reference: CString := responseFileArg.value;
      Int16Adds(Room(args), |reference| + 1);
      len := Int16(len + (|reference| + 1));
      var i := FindCut(len, reference);
      var content := WriteResponseFile(args[i..]);
      files := files[Named(reference) := content];
      args := args[..i] + [reference];
    }
  }

  /** `now` is `args` cut at its cut, with the rest moved into the file referred to. */
  ghost predicate Squashed(args: seq<CString>, files: map<CString, string>, reference: CString,
                           now: seq<CString>, nowFiles: map<CString, string>)
    requires StartsWith(reference, '@')
  {
    exists i: nat :: IsCut(args, reference, i)
      && now == CutAt(args, reference, i) && nowFiles == FilesAt(args, files, reference, i)
  }

  /** The squashed list and files, for a cut at i. */
  function CutAt(args: seq<CString>, reference: CString, i: nat): seq<CString>
    requires i < |args|
  {
    args[..i] + [reference]
  }

  function FilesAt(args: seq<CString>, files: map<CString, string>, reference: CString, i: nat): map<CString, string>
    requires i < |args| && StartsWith(reference, '@')
  {
    files[Named(reference) := Lines(args[i..])]
  }

  lemma {:induction false} RoomOfConcat(a: seq<CString>, b: CString)
    ensures Room(a + [b]) == Room(a) + 1 + |b|
  {
    assert (a + [b])[..|a + [b]| - 1] == a;
  }

  lemma RoomOneMore(args: seq<CString>, i: nat)
    requires i < |args|
    ensures Room(args[..i + 1]) == Room(args[..i]) + 1 + |args[i]|
  {
    PrefixOneMore(args, i);
    RoomOfConcat(args[..i], args[i]);
  }

  lemma {:induction false} OneLess(args: seq<CString>, reference: CString, i: nat)
    requires i < |args|
    ensures Int16(Int16(Room(args[..i + 1]) + |reference| + 1) - (|args[i]| + 1))
         == Int16(Room(args[..i]) + 1 + |reference|)
  {
    RoomOneMore(args, i);
    Int16Adds(Room(args[..i + 1]) + |reference| + 1, -(|args[i]| + 1));
  }

  /** The cut is at an option exactly when there is one to cut at. */
  lemma CutIsAtOption(args: seq<CString>, reference: CString, i: nat)
    requires IsCut(args, reference, i)
    ensures i > 1 <==> exists j :: 1 < j < |args| && CutsWell(args, reference, j)
  {
    assert i <= 1 ==> forall j :: 1 < j < |args| ==> !CutsWell(args, reference, j);
  }

  /** The sum is small exactly when it is right. */
  lemma SmallSum(x: nat)
    requires Int16(x) <= MAX_COMMAND_LINE_LEN
    ensures x <= MAX_COMMAND_LINE_LEN <==> x < 0x8000
  {
  }

  /** A list squashed at an option fits the limit exactly when what stays has not overflowed the
      sum; squashed at the first argument, it fits exactly when the program's name leaves room
      for the reference. */
  lemma SquashedFits(args: seq<CString>, reference: CString, i: nat)
    requires IsCut(args, reference, i)
    ensures var room := Room(CutAt(args, reference, i));
      if i > 1 then room <= MAX_COMMAND_LINE_LEN <==> Room(args[..i]) + 1 + |reference| < 0x8000
      else room == Room(if |args| == 1 then [] else [args[0]]) + 1 + |reference|
  {
    RoomOfConcat(args[..i], reference);
    if i > 1 {
      SmallSum(Room(args[..i]) + 1 + |reference|);
    } else {
      assert args[..0] == [] && args[..1] == [args[0]];
    }
  }

  /** A list left alone fits the limit exactly when its length has not overflowed the sum. */
  lemma {:induction false} LeftAloneFits(args: seq<CString>)
    requires Int16(Room(args)) <= MAX_COMMAND_LINE_LEN
    ensures Room(args) <= MAX_COMMAND_LINE_LEN <==> Room(args) < 0x8000
  {
    SmallSum(Room(args));
  }

  /** A line of 32768 characters is taken for a short one. */
  lemma TakenForShort()
    ensures var a: CString := seq(32767, _ => 'a'); Room([a]) == 32768 && Int16(Room([a])) == -32768
  {
    var a: CString := seq(32767, _ => 'a');
    EmptyConcat([a]);
    RoomOfConcat([], a);
  }

  /** With a long program name and no option after it, squashing makes the line longer. */
  lemma SquashedTooLong()
    ensures var name: CString, last: CString, reference: CString := seq(120, _ => 'a'), seq(5, _ => 'b'), "@rsp12345";
      var args := [name, last];
      && Room(args) == 127 > MAX_COMMAND_LINE_LEN
      && IsCut(args, reference, 1) && Room(CutAt(args, reference, 1)) == 131
  {
    var name: CString, last: CString, reference: CString := seq(120, _ => 'a'), seq(5, _ => 'b'), "@rsp12345";
    assert [name, last] == [name] + [last] && [name] == [] + [name];
    RoomOfConcat([], name);
    RoomOfConcat([name], last);
    RoomOfConcat([name], reference);
    assert CutAt([name, last], reference, 1) == [name] + [reference];
  }

  // ------------------------------------------------------------------------------------
  // When a squashed command line comes back whole.

  lemma {:induction false} ExpandedInTwo(a: seq<CString>, b: seq<CString>, files: map<CString, string>)
    ensures Expanded(a + b, files) == Joined(Expanded(a, files), Expanded(b, files))
  {
    if a == [] {
      assert a + b == b;
      if Expanded(b, files).Success? { assert [] + Expanded(b, files).value == Expanded(b, files).value; }
    } else {
      assert (a + b)[0] == a[0] && (a + b)[1..] == a[1..] + b;
      ExpandedInTwo(a[1..], b, files);
      if Expanded(a[1..], files).Success? && ReadFirst(a, files).Success? {
        PrependTwice(ReadFirst(a, files).value, Expanded(a[1..], files).value, Expanded(b, files));
      }
    }
  }

  /** What the first argument expands to. */
  function ReadFirst(args: seq<CString>, files: map<CString, string>): Result<seq<CString>>
    requires args != []
  {
    if !StartsWith(args[0], '@') then Success([args[0]])
    else if Named(args[0]) !in files then FileNotFound(Named(args[0]))
    else ReadBack(files[Named(args[0])])
  }

  lemma {:induction false} ExpandedWithoutReferences(args: seq<CString>, files: map<CString, string>)
    requires forall a :: a in args ==> !StartsWith(a, '@')
    ensures Expanded(args, files) == Success(args)
  {
    if args != [] {
      ExpandedWithoutReferences(args[1..], files);
      assert [args[0]] + args[1..] == args;
    }
  }

  lemma {:induction false} ReferenceAlone(reference: CString, files: map<CString, string>)
    requires StartsWith(reference, '@') && Named(reference) in files
    ensures Expanded([reference], files) == ReadBack(files[Named(reference)])
  {
    var read := ReadBack(files[Named(reference)]);
    assert [reference][1..] == [];
    if read.Success? { assert read.value + [] == read.value; }
  }

  /** What a receiver that expands response files makes of a list cut at i > 0: the kept
      arguments expanded, then the moved ones as their file gives them back. */
  lemma ExpandsTo(args: seq<CString>, files: map<CString, string>, reference: CString, i: nat)
    requires StartsWith(reference, '@') && 0 < i < |args|
    ensures var nowFiles := FilesAt(args, files, reference, i);
      ExpandedCommandLine(CutAt(args, reference, i), nowFiles)
      == Prepend([args[0]], Joined(Expanded(args[1..i], nowFiles), ReadBack(Lines(args[i..]))))
  {
    var now, nowFiles := CutAt(args, reference, i), FilesAt(args, files, reference, i);
    assert now[0] == args[0] && now[1..] == args[1..i] + [reference];
    ExpandedInTwo(args[1..i], [reference], nowFiles);
    ReferenceAlone(reference, nowFiles);
  }

  /** Whatever is kept: squashing a list at i > 0 and expanding it again restores it exactly
      when what the kept arguments expand to, followed by what the file gives back, is the list
      after the program's name. */
  lemma SquashThenExpandAny(args: seq<CString>, files: map<CString, string>, reference: CString, i: nat)
    requires StartsWith(reference, '@') && 0 < i < |args|
    ensures var nowFiles := FilesAt(args, files, reference, i);
      var kept, moved := Expanded(args[1..i], nowFiles), ReadBack(Lines(args[i..]));
      ExpandedCommandLine(CutAt(args, reference, i), nowFiles) == Success(args)
      <==> kept.Success? && moved.Success? && kept.value + moved.value == args[1..]
  {
    var nowFiles := FilesAt(args, files, reference, i);
    var kept, moved := Expanded(args[1..i], nowFiles), ReadBack(Lines(args[i..]));
    ExpandsTo(args, files, reference, i);
    if kept.Success? && moved.Success? {
      var rest := kept.value + moved.value;
      assert ([args[0]] + rest)[1..] == rest;
      assert args == [args[0]] + args[1..];
    }
  }

  lemma NothingKept(args: seq<CString>, files: map<CString, string>, reference: CString)
    requires StartsWith(reference, '@') && |args| == 1
    ensures ExpandedCommandLine(CutAt(args, reference, 0), FilesAt(args, files, reference, 0)) == Success([reference])
  {
    assert CutAt(args, reference, 0) == [reference] && [reference][1..] == [];
    assert [reference] + [] == [reference];
  }

  lemma SameFront<T>(a: seq<T>, b: seq<T>, tail: seq<T>)
    ensures a + tail == b + tail <==> a == b
  {
    if a + tail == b + tail {
      assert a == (a + tail)[..|a|] && b == (b + tail)[..|b|];
    }
  }

  // ------------------------------------------------------------------------------------
  // Counting the arguments a response file can hold.

  function PlainCount(args: seq<CString>): (n: nat)
    ensures n <= |args|
  {
    if args == [] then 0 else (if Plain(args[0]) then 1 else 0) + PlainCount(args[1..])
  }

  lemma {:induction false} PlainCountAdds(a: seq<CString>, b: seq<CString>)
    ensures PlainCount(a + b) == PlainCount(a) + PlainCount(b)
  {
    if a == [] {
      EmptyConcat(b);
    } else {
      TailOfConcat(a, b);
      PlainCountAdds(a[1..], b);
    }
  }

  lemma {:induction false} AllPlain(args: seq<CString>)
    ensures PlainCount(args) == |args| <==> forall a :: a in args ==> Plain(a)
  {
    if args != [] {
      AllPlain(args[1..]);
      HeadAndTail(args);
      assert args[0] in args && forall a :: a in args[1..] ==> a in args;
    }
  }

  lemma RestOfLine<T>(a: seq<T>, end: T, rest: seq<T>, n: nat)
    requires n <= |a|
    ensures var s := a + [end] + rest;
      && s[..n] == a[..n] && s[n..] == a[n..] + [end] + rest
      && n < |s| && s[n] == (if n < |a| then a[n] else end)
  {
  }

  lemma {:induction false} EndOfLine(rest: string)
    ensures Runs([NEWLINE] + rest) == Runs(rest)
  {
    SpaceFirst([NEWLINE] + rest);
    TailOfConcat([NEWLINE], rest);
    EmptyConcat(rest);
  }

  /** The first run of a line is that of its argument. */
  lemma {:induction false} FirstRunOfLine(a: string, rest: string, n: nat)
    requires 0 < n <= |a| && n == WordLength(a)
    ensures Runs(a) == [a[..n]] + Runs(a[n..])
    ensures Runs(a + [NEWLINE] + rest) == [a[..n]] + Runs(a[n..] + [NEWLINE] + rest)
  {
    var s := a + [NEWLINE] + rest;
    RestOfLine(a, NEWLINE, rest, n);
    assert forall k :: 0 <= k < n ==> s[k] == a[k];
    FirstRun(a, n);
    FirstRun(s, n);
  }

  lemma {:induction false} FirstSpaceOfLine(a: string, rest: string)
    requires a != "" && IsSpace(a[0])
    ensures Runs(a) == Runs(a[1..])
    ensures Runs(a + [NEWLINE] + rest) == Runs(a[1..] + [NEWLINE] + rest)
  {
    RestOfLine(a, NEWLINE, rest, 1);
    RestOfLine(a, NEWLINE, rest, 0);
    SpaceFirst(a);
    SpaceFirst(a + [NEWLINE] + rest);
  }

  /** A line's words are those of its argument and then those of the other lines. */
  lemma {:induction false} RunsOfAnyLine(a: string, rest: string)
    ensures Runs(a + [NEWLINE] + rest) == Runs(a) + Runs(rest)
    decreases |a|
  {
    if a == "" {
      EndOfLine(rest);
      EmptyConcat([NEWLINE]);
      EmptyConcat(Runs(rest));
    } else if IsSpace(a[0]) {
      FirstSpaceOfLine(a, rest);
      RunsOfAnyLine(a[1..], rest);
    } else {
      var n := WordLength(a);
      FirstRunOfLine(a, rest, n);
      RunsOfAnyLine(a[n..], rest);
      ConcatThree([a[..n]], Runs(a[n..]), Runs(rest));
    }
  }

  lemma {:induction false} PlainIsOneRun(a: CString)
    requires Plain(a)
    ensures Runs(a) == [a]
  {
    FirstRun(a, |a|);
    assert a[..|a|] == a && a[|a|..] == "";
  }

  /** A file has at least as many words as it was given plain arguments, and more if the first
      argument is not plain and yet holds something. */
  lemma {:induction false} WordsAtLeast(args: seq<CString>)
    ensures |Runs(Lines(args))| >= PlainCount(args)
    ensures args != [] && !Plain(args[0]) && Runs(args[0]) != [] ==> |Runs(Lines(args))| > PlainCount(args)
  {
    if args != [] {
      RunsOfAnyLine(args[0], Lines(args[1..]));
      WordsAtLeast(args[1..]);
      if Plain(args[0]) { PlainIsOneRun(args[0]); }
    }
  }

  ghost predicate NulFree(files: map<CString, string>) {
    forall n :: n in files ==> NoNul(files[n])
  }

  /** Expanding arguments adds none that a file cannot hold, if no file holds a NUL. */
  lemma {:induction false} ExpandingAddsPlain(args: seq<CString>, files: map<CString, string>)
    requires NulFree(files) && Expanded(args, files).Success?
    ensures Fragile(Expanded(args, files).value) <= Fragile(args)
  {
    if args != [] {
      ExpandingAddsPlain(args[1..], files);
      var first := ReadFirst(args, files).value;
      PlainCountAdds(first, Expanded(args[1..], files).value);
      if StartsWith(args[0], '@') {
        WordsArePlain(files[Named(args[0])]);
        AllPlain(first);
      }
    }
  }

  // ------------------------------------------------------------------------------------
  // What comes back whole.

  /** No moved argument is made up for by one that expansion adds. */
  lemma {:induction false} NoneStray(moved: seq<CString>, stray: seq<CString>, back: seq<CString>)
    requires moved != [] && Runs(moved[0]) != [] && moved == stray + back
    requires GivenBack(moved, back) && forall a :: a in back ==> Plain(a)
    ensures stray == []
  {
    PlainCountAdds(stray, back);
    AllPlain(back);
    assert stray != [] ==> moved[0] == stray[0];
    WordsAtLeast(moved);
  }

  /** If the expanded kept arguments and the words of the file are the kept and the moved
      arguments in another division, the moved ones are plain. */
  lemma {:induction false} NothingStrayed(kept: seq<CString>, moved: seq<CString>, front: seq<CString>, back: seq<CString>)
    requires moved != [] && Runs(moved[0]) != [] && GivenBack(moved, back) && front + back == kept + moved
    ensures forall a :: a in moved ==> Plain(a)
  {
    LinesNoNul(moved);
    WordsArePlain(Lines(moved));
    if |front| <= |kept| {
      assert moved == (front + back)[|kept|..] == back[|kept| - |front|..];
    } else {
      var stray := front[|kept|..];
      assert moved == (front + back)[|kept|..] == stray + back;
      NoneStray(moved, stray, back);
      EmptyConcat(back);
    }
  }

  /** How many arguments a file could not hold. */
  function Fragile(args: seq<CString>): nat { |args| - PlainCount(args) }

  ghost predicate GivenBack(moved: seq<CString>, back: seq<CString>) {
    back == Words(Lines(moved))
  }

  lemma NothingAdded(kept: seq<CString>, moved: seq<CString>, front: seq<CString>, back: seq<CString>)
    requires GivenBack(moved, back) && front + back == kept + moved && Fragile(front) <= Fragile(kept)
    ensures forall a :: a in moved ==> Plain(a)
  {
    LinesNoNul(moved);
    WordsArePlain(Lines(moved));
    AllPlain(back);
    AllPlain(moved);
    PlainCountAdds(front, back);
    PlainCountAdds(kept, moved);
    assert |front + back| == |kept + moved|;
  }

  /** What keeps a list from coming back by accident: nothing is kept but the program's name,
      or the first moved argument holds something, or no file holds a NUL. */
  ghost predicate NoAccident(args: seq<CString>, files: map<CString, string>, i: nat)
    requires i < |args|
  {
    i == 1 || Runs(args[i]) != [] || NulFree(files)
  }

  lemma MovedArePlain(args: seq<CString>, files: map<CString, string>, reference: CString, i: nat)
    requires StartsWith(reference, '@') && 0 < i < |args| && NoAccident(args, files, i)
    requires ExpandedCommandLine(CutAt(args, reference, i), FilesAt(args, files, reference, i)) == Success(args)
    ensures forall a :: a in args[i..] ==> Plain(a)
  {
    var nowFiles, kept, moved := FilesAt(args, files, reference, i), args[1..i], args[i..];
    SquashThenExpandAny(args, files, reference, i);
    var front, back := Expanded(kept, nowFiles).value, ReadBack(Lines(moved)).value;
    assert front + back == kept + moved by { assert args[1..] == kept + moved; }
    if i == 1 {
      assert kept == [] && front == [];
      EmptyConcat(back);
      EmptyConcat(moved);
      LinesNoNul(moved);
      WordsArePlain(Lines(moved));
    } else if Runs(args[i]) != [] {
      NothingStrayed(kept, moved, front, back);
    } else {
      LinesNoNul(moved);
      ExpandingAddsPlain(kept, nowFiles);
      NothingAdded(kept, moved, front, back);
    }
  }

  /** Squashing a list at i and expanding it again restores it exactly when the kept arguments
      are their own expansion and the moved ones survive their file. */
  lemma RestoredExactly(args: seq<CString>, files: map<CString, string>, reference: CString, i: nat)
    requires StartsWith(reference, '@') && 0 < i < |args| && NoAccident(args, files, i)
    ensures var nowFiles := FilesAt(args, files, reference, i);
      ExpandedCommandLine(CutAt(args, reference, i), nowFiles) == Success(args)
      <==> Expanded(args[1..i], nowFiles) == Success(args[1..i]) && Survives(args[i..])
  {
    var nowFiles, kept, moved := FilesAt(args, files, reference, i), args[1..i], args[i..];
    SquashThenExpandAny(args, files, reference, i);
    WriteThenRead(moved);
    assert args[1..] == kept + moved;
    if ExpandedCommandLine(CutAt(args, reference, i), nowFiles) == Success(args) {
      MovedArePlain(args, files, reference, i);
      PlainRoundTrip(moved);
      SameFront(Expanded(kept, nowFiles).value, kept, moved);
    }
  }

  lemma {:induction false} HoldsADash(a: CString)
    requires StartsWith(a, '-')
    ensures Runs(a) != []
  {
  }

  /** A squashed command line comes back whole, whatever the files hold, exactly when its kept
      arguments are their own expansion, as they are when none starts with '@', and its moved ones
      survive their file; a line of the program's name alone, exactly when that is the reference. */
  lemma SquashThenExpand(args: seq<CString>, files: map<CString, string>, reference: CString, i: nat)
    requires StartsWith(reference, '@') && IsCut(args, reference, i)
    ensures var nowFiles := FilesAt(args, files, reference, i);
      var restored := ExpandedCommandLine(CutAt(args, reference, i), nowFiles) == Success(args);
      if |args| == 1 then restored <==> args == [reference]
      else i > 0 && (restored <==> Expanded(args[1..i], nowFiles) == Success(args[1..i]) && Survives(args[i..]))
    ensures (forall k :: 1 <= k < i ==> !StartsWith(args[k], '@')) && i > 0 ==>
      Expanded(args[1..i], FilesAt(args, files, reference, i)) == Success(args[1..i])
  {
    if |args| == 1 {
      NothingKept(args, files, reference);
    } else {
      if i > 1 { HoldsADash(args[i]); }
      RestoredExactly(args, files, reference, i);
      if forall k :: 1 <= k < i ==> !StartsWith(args[k], '@') {
        ExpandedWithoutReferences(args[1..i], FilesAt(args, files, reference, i));
      }
    }
  }

  /** Without those conditions a list can come back by accident: the file f gives an extra empty
      argument just where a moved one is lost. */
  lemma ByAccident()
    ensures var args: seq<CString>, reference: CString := ["p", "@f", "", "a"], "@r";
      var files: map<CString, string> := map["f" := "@f " + [NUL]];
      var nowFiles := FilesAt(args, files, reference, 2);
      && ExpandedCommandLine(CutAt(args, reference, 2), nowFiles) == Success(args)
      && Expanded(args[1..2], nowFiles) != Success(args[1..2]) && !Survives(args[2..])
  {
    var args: seq<CString>, reference: CString := ["p", "@f", "", "a"], "@r";
    var files: map<CString, string> := map["f" := "@f " + [NUL]];
    var nowFiles := FilesAt(args, files, reference, 2);
    AccidentalArgs();
    AccidentalKept(nowFiles);
    AccidentalLines();
    SquashThenExpandAny(args, files, reference, 2);
  }

  lemma AccidentalArgs()
    ensures var args: seq<CString>, kept: seq<CString>, moved: seq<CString> := ["p", "@f", "", "a"], ["@f", ""], ["a"];
      args[1..2] == ["@f"] && args[2..] == ["", "a"] && args[1..] == kept + moved
  {
  }

  lemma {:induction false} AccidentalKept(files: map<CString, string>)
    requires "f" in files && files["f"] == "@f " + [NUL]
    ensures Expanded(["@f"], files) == Success(["@f", ""])
  {
    AccidentalFile();
    assert Named("@f") == "f";
    ReferenceAlone("@f", files);
  }

  lemma AccidentalFile()
    ensures ReadBack("@f " + [NUL]) == Success(["@f", ""])
  {
    var s := "@f " + [NUL];
    FirstRun(s, 2);
    assert s[..2] == "@f" && s[2..] == " " + [NUL];
    SpaceFirst(s[2..]);
    assert s[2..][1..] == [NUL];
    FirstRun([NUL], 1);
    assert [NUL][..1] == [NUL] && [NUL][1..] == "";
    assert Runs(s) == ["@f", [NUL]];
    StoresFitMeans(Runs(s));
    DuplicatedWhole("@f");
    assert Duplicated([NUL]) == "";
    assert Words(s) == ["@f", ""];
  }

  lemma AccidentalLines()
    ensures ReadBack(Lines(["", "a"])) == Success(["a"]) && !Survives(["", "a"])
  {
    assert ["", "a"][0] == "" && "" in ["", "a"];
    var args: seq<CString>, a: seq<CString> := ["", "a"], ["a"];
    assert args[1..] == a;
    RunsOfAnyLine("", Lines(a));
    PlainRoundTrip(a);
    StoresFitMeans(a);
  }
}

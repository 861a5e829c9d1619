/** lib/flag.c: response files, which hold one argument per line. */
module ResponseFiles {
  import opened Options
  import opened Seqs

  ghost predicate NoNul(s: string) { forall k :: 0 <= k < |s| ==> s[k] as int != 0 }

  /** A C string. */
  type CString = s: string | NoNul(s)

  /** Overrun is a store past the end of the read buffer, after which the source's behaviour
      is undefined. A missing file ends the program. */
  datatype Result<T> = Success(value: T) | FileNotFound(name: CString) | Overrun

  /** isspace in the C locale. */
  predicate IsSpace(c: char) {
    c as int == 32 || 9 <= c as int <= 13
  }

  const NUL: char := 0 as char

  const NEWLINE: char := 10 as char

  // ------------------------------------------------------------------------------------
  // The words of a file.

  /** What strdup keeps of a buffer: everything before the first NUL. */
  function Duplicated(s: string): CString {
    if s == "" || s[0] == NUL then ""
    else
      var rest: string := Duplicated(s[1..]);
      [s[0]] + rest
  }

  function WordLength(s: string): (n: nat)
    ensures n <= |s|
    ensures forall k :: 0 <= k < n ==> !IsSpace(s[k])
    ensures n < |s| ==> IsSpace(s[n])
  {
    if s == "" || IsSpace(s[0]) then 0 else 1 + WordLength(s[1..])
  }

  /** The maximal runs of non-space characters. */
  function Runs(s: string): seq<string>
    decreases |s|
  {
    if s == "" then []
    else if IsSpace(s[0]) then Runs(s[1..])
    else [s[..WordLength(s)]] + Runs(s[WordLength(s)..])
  }

  /** The arguments a file holds. */
  function Words(s: string): (r: seq<CString>)
    ensures |r| == |Runs(s)|
  {
    Copies(Runs(s))
  }

  function Copies(runs: seq<string>): (r: seq<CString>)
    ensures |r| == |runs|
  {
    seq(|runs|, k requires 0 <= k < |runs| => Duplicated(runs[k]))
  }

  // ------------------------------------------------------------------------------------
  // The read buffer.

  const CHUNK: nat := 64

  /** The size of a buffer of `size` bytes once it has grown to hold n characters. */
  function Grown(size: nat, n: nat): (r: nat)
    ensures size <= r && n <= r
    ensures r % CHUNK == size % CHUNK
    ensures r == size || r < n + CHUNK
    decreases n - size
  {
    if n <= size then size else Grown(size + CHUNK, n)
  }

  /** Read one after the other into a buffer of `size` bytes, every run leaves room for the NUL
      that ends it. */
  predicate StoresFit(size: nat, runs: seq<string>)
    decreases |runs|
  {
    runs == []
    || (|runs[0]| < Grown(size, |runs[0]|) && StoresFit(Grown(size, |runs[0]|), runs[1..]))
  }

  /** ReadResponseFile, given the file's contents. */
  function ReadBack(s: string): Result<seq<CString>> {
    if StoresFit(0, Runs(s)) then Success(Words(s)) else Overrun
  }

  /** No run fills its buffer to the last byte: a run whose length is a multiple of the
      chunk is all right only after a longer one. */
  ghost predicate LeaveRoom(runs: seq<string>) {
    forall k :: 0 <= k < |runs| && |runs[k]| % CHUNK == 0 ==> LongerBefore(runs, k)
  }

  ghost predicate LongerBefore(runs: seq<string>, k: nat) {
    && k < |runs|
    && exists j :: 0 <= j < k && |runs[j]| > |runs[k]|
  }

  /** The buffer's size after runs 0..k of `runs`. */
  ghost predicate SizeAfter(runs: seq<string>, k: nat, size: nat) {
    && k <= |runs|
    && size % CHUNK == 0
    && (forall j :: 0 <= j < k ==> |runs[j]| <= size)
    && (size > 0 ==> exists j :: 0 <= j < k && |runs[j]| > size - CHUNK)
  }

  lemma MultiplesApart(a: nat, b: nat)
    requires a % CHUNK == 0 && b % CHUNK == 0 && a < b
    ensures a <= b - CHUNK
  {
  }

  lemma {:induction false} NextSize(runs: seq<string>, k: nat, size: nat)
    requires k < |runs| && runs[k] != "" && SizeAfter(runs, k, size)
    ensures SizeAfter(runs, k + 1, Grown(size, |runs[k]|))
    ensures |runs[k]| < Grown(size, |runs[k]|) <==> (|runs[k]| % CHUNK == 0 ==> LongerBefore(runs, k))
  {
    var n, next := |runs[k]|, Grown(size, |runs[k]|);
    if next > size { assert |runs[k]| > next - CHUNK; }
    if n % CHUNK == 0 && n < next {
      MultiplesApart(n, next);
    }
  }

  lemma {:induction false} StoresFitFrom(runs: seq<string>, k: nat, size: nat)
    requires k <= |runs| && SizeAfter(runs, k, size) && forall w :: w in runs ==> w != ""
    ensures StoresFit(size, runs[k..])
       <==> forall m :: k <= m < |runs| && |runs[m]| % CHUNK == 0 ==> LongerBefore(runs, m)
    decreases |runs| - k
  {
    if k < |runs| {
      assert runs[k] in runs;
      NextSize(runs, k, size);
      StoresFitFrom(runs, k + 1, Grown(size, |runs[k]|));
      assert runs[k..][0] == runs[k] && runs[k..][1..] == runs[k + 1..];
    }
  }

  /** When the stores of a whole file fit. */
  lemma {:induction false} StoresFitMeans(runs: seq<string>)
    requires forall w :: w in runs ==> w != ""
    ensures StoresFit(0, runs) <==> LeaveRoom(runs)
  {
    StoresFitFrom(runs, 0, 0);
    assert runs[0..] == runs;
  }

  lemma {:induction false} RunsNotEmpty(s: string)
    ensures forall w :: w in Runs(s) ==> w != ""
    decreases |s|
  {
    if s != "" {
      if IsSpace(s[0]) { RunsNotEmpty(s[1..]); } else { RunsNotEmpty(s[WordLength(s)..]); }
    }
  }

  /** Reading a file, whatever wrote it, overruns the buffer exactly when some word's length is
      a multiple of the chunk and no longer word comes before it. */
  lemma {:induction false} ReadBackMeans(s: string)
    ensures ReadBack(s) == if LeaveRoom(Runs(s)) then Success(Words(s)) else Overrun
  {
    RunsNotEmpty(s);
    StoresFitMeans(Runs(s));
  }

  lemma GrownStepwise(size: nat, n: nat)
    ensures Grown(Grown(size, n), n + 1) == Grown(size, n + 1)
    decreases n - size
  {
    if n > size { GrownStepwise(size + CHUNK, n); }
  }

  lemma {:induction false} DuplicatedStops(s: string, n: nat)
    requires n < |s| && s[n] == NUL
    ensures Duplicated(s) == Duplicated(s[..n])
  {
    if n > 0 && s[0] != NUL {
      DuplicatedStops(s[1..], n - 1);
      assert s[..n][1..] == s[1..][..n - 1];
    }
  }

  /** readbuf, readbuf_len and arg_len. */
  class ReadBuffer {
    var chars: array<char>
    var len: nat

    ghost predicate Valid()
      reads this
    {
      len <= chars.Length
    }

    /** The word so far. */
    function Text(): (r: string)
      requires Valid()
      reads this, chars
      ensures |r| == len
    {
      chars[..len]
    }

    constructor ()
      ensures Valid() && chars.Length == 0 && fresh(chars)
    {
      chars := new char[0];
      len := 0;
    }

    method Restart()
      modifies this`len
      ensures Valid() && Text() == ""
    {
      len := 0;
    }

    method Grow()
      requires Valid()
      modifies this`chars
      ensures Valid() && Text() == old(Text())
      ensures fresh(chars) && chars.Length == old(chars.Length) + CHUNK
    {
      var longer := new char[chars.Length + CHUNK];
      for i := 0 to len
        invariant chars == old(chars) && chars[..] == old(chars[..])
        invariant longer[..i] == chars[..i]
      {
        longer[i] := chars[i];
      }
      chars := longer;
    }

    /** Store one character of a word, growing the buffer when it is full. */
    method Store(c: char)
      requires Valid()
      modifies this, chars
      ensures Valid() && Text() == old(Text()) + [c]
      ensures chars == old(chars) || fresh(chars)
      ensures chars.Length == Grown(old(chars.Length), old(len) + 1)
    {
      if len + 1 > chars.Length { Grow(); }
      chars[len] := c;
      len := len + 1;
    }

    /** End the word with a NUL and copy it. The store has no bound test of its own; None
        stands for the store that misses the buffer. */
    method Terminate() returns (arg: Option<CString>)
      requires Valid()
      modifies chars
      ensures arg == if len < chars.Length then Some(Duplicated(old(Text()))) else None
    {
      if len >= chars.Length { return None; }
      chars[len] := NUL;
      DuplicatedStops(chars[..], len);
      assert chars[..][..len] == old(Text());
      arg := Some(Duplicated(chars[..]));
    }
  }

  // ------------------------------------------------------------------------------------
  // Reading.

  /** A FILE open for reading: feof turns true only once a read has failed. */
  class Stream {
    const content: string
    var pos: nat
    var eof: bool

    constructor (content: string)
      ensures this.content == content && pos == 0 && !eof
    {
      this.content := content;
      pos, eof := 0, false;
    }

    ghost predicate Valid()
      reads this
    {
      pos <= |content| && (eof ==> pos == |content|)
    }

    function Unread(): string
      requires pos <= |content|
      reads this
    {
      content[pos..]
    }

    /** None is EOF, which is not a space. */
    method GetC() returns (c: Option<char>)
      requires Valid()
      modifies this
      ensures Valid()
      ensures old(pos) < |content| ==> c == Some(content[old(pos)]) && pos == old(pos) + 1 && eof == old(eof)
      ensures old(pos) == |content| ==> c == None && pos == old(pos) && eof
    {
      if pos < |content| {
        c := Some(content[pos]);
        pos := pos + 1;
      } else {
        c := None;
        eof := true;
      }
    }

    /** Skip past any whitespace, reading one character too many. */
    method SkipSpaces() returns (c: Option<char>)
      requires Valid()
      modifies this
      ensures Valid()
      ensures eof ==> Runs(content[old(pos)..]) == []
      ensures !eof ==> c.Some? && !IsSpace(c.value) && pos > old(pos) && content[pos - 1] == c.value
      ensures !eof ==> SameRuns(content, old(pos), pos - 1)
    {
      c := None;
      ghost var start := pos;
      assert SameRuns(content, start, pos);
      while !eof
        invariant Valid() && start <= pos
        invariant SameRuns(content, start, pos)
        decreases |content| - pos, !eof
      {
        c := GetC();
        if c.None? || !IsSpace(c.value) { break; }
        SpaceAt(content, pos - 1);
      }
      if eof { NothingAt(content); }
    }

    /** Store a character and read the next. */
    method StoreNext(ghost start: nat, last: char, buf: ReadBuffer) returns (c: Option<char>)
      requires Valid() && buf.Valid() && !eof && !IsSpace(last)
      requires InWord(content, start, buf.Text(), pos, eof, Some(last))
      modifies this, buf, buf.chars
      ensures Valid() && buf.Valid() && old(pos) <= pos && (pos == old(pos) ==> eof)
      ensures buf.chars == old(buf.chars) || fresh(buf.chars)
      ensures buf.chars.Length == Grown(old(buf.chars.Length), buf.len) && buf.len == old(buf.len) + 1
      ensures InWord(content, start, buf.Text(), pos, eof, c)
    {
      ghost var word, at := buf.Text(), pos;
      buf.Store(last);
      c := GetC();
      NextInWord(content, start, word, at, pos, eof, c);
    }

    /** The rest of a word whose first character has been read, into the buffer. */
    method StoreWord(first: char, buf: ReadBuffer)
      requires Valid() && !eof && 0 < pos && content[pos - 1] == first && !IsSpace(first) && buf.Valid()
      modifies this, buf, buf.chars
      ensures Valid() && old(pos) <= pos && buf.Valid()
      ensures buf.chars == old(buf.chars) || fresh(buf.chars)
      ensures buf.chars.Length == Grown(old(buf.chars.Length), buf.len)
      ensures Runs(old(content[pos - 1..])) == [buf.Text()] + Runs(Unread())
    {
      ghost var start, size := pos - 1, buf.chars.Length;
      buf.Restart();
      var c := Some(first);
      while !eof && !(c.Some? && IsSpace(c.value))
        invariant Valid() && old(pos) <= pos && buf.Valid()
        invariant buf.chars == old(buf.chars) || fresh(buf.chars)
        invariant buf.chars.Length == Grown(size, buf.len)
        invariant InWord(content, start, buf.Text(), pos, eof, c)
        decreases |content| - pos, !eof
      {
        GrownStepwise(size, buf.len);
        c := StoreNext(start, c.value, buf);
      }
      WordEnds(content, start, buf.Text(), pos, eof, c);
    }

    method ReadWord(first: char, buf: ReadBuffer) returns (arg: Option<CString>)
      requires Valid() && !eof && 0 < pos && content[pos - 1] == first && !IsSpace(first) && buf.Valid()
      modifies this, buf, buf.chars
      ensures Valid() && old(pos) <= pos && buf.Valid()
      ensures buf.chars == old(buf.chars) || fresh(buf.chars)
      ensures Took(Runs(old(content[pos - 1..])), old(buf.chars.Length), arg, Runs(Unread()), buf.chars.Length)
    {
      StoreWord(first, buf);
      arg := buf.Terminate();
    }

    method ReadResponseFile() returns (result: Result<seq<CString>>)
      requires Valid() && pos == 0 && !eof
      modifies this
      ensures result == ReadBack(content)
    {
      var args := [];
      var buf := new ReadBuffer();
      ReadOnStarts(content);
      assert Unread() == content;
      while true
        invariant Valid() && buf.Valid() && fresh(buf) && fresh(buf.chars)
        invariant ReadBack(content) == ReadOn(args, buf.chars.Length, Runs(Unread()))
        decreases |content| - pos
      {
        ghost var size, unread := buf.chars.Length, Runs(Unread());
        var c := SkipSpaces();
        if eof {
          ReadOnEnds(args, size);
          break;
        }
        var arg := ReadWord(c.value, buf);
        ReadOneMore(args, size, unread, arg, Runs(Unread()), buf.chars.Length);
        if arg == None { return Overrun; }
        args := args + [arg.value];
      }
      result := Success(args);
    }
  }

  lemma RunAt(s: string, start: nat, word: string)
    requires word != "" && start + |word| <= |s| && word == s[start..start + |word|]
    requires forall k :: 0 <= k < |word| ==> !IsSpace(word[k])
    requires start + |word| < |s| ==> IsSpace(s[start + |word|])
    ensures Runs(s[start..]) == [word] + Runs(s[start + |word|..])
  {
    var r := s[start..];
    assert r[..|word|] == word && r[|word|..] == s[start + |word|..];
    forall k | 0 <= k < |word| ensures !IsSpace(r[k]) { assert r[k] == word[k]; }
    FirstRun(r, |word|);
  }

  /** Only white space lies between a and b, as far as the words are concerned. */
  ghost predicate SameRuns(s: string, a: nat, b: nat) {
    a <= |s| && b <= |s| && Runs(s[a..]) == Runs(s[b..])
  }

  lemma NothingAt(s: string)
    ensures Runs(s[|s|..]) == []
  {
  }

  lemma SpaceAt(s: string, at: nat)
    requires at < |s| && IsSpace(s[at])
    ensures SameRuns(s, at, at + 1)
  {
    SpaceFirst(s[at..]);
    assert s[at..][1..] == s[at + 1..];
  }

  /** `word` is what has been stored of the run at `start` when everything before `pos` has
      been read, c last. */
  ghost predicate InWord(s: string, start: nat, word: string, pos: nat, eof: bool, c: Option<char>) {
    && start + |word| <= |s| && word == s[start..start + |word|]
    && (forall k :: 0 <= k < |word| ==> !IsSpace(word[k]))
    && (if eof then c.None? && pos == start + |word| == |s|
        else pos == start + |word| + 1 <= |s| && c == Some(s[pos - 1]))
    && (word == "" ==> c.Some? && !IsSpace(c.value))
  }

  lemma NextInWord(s: string, start: nat, word: string, at: nat, pos: nat, eof: bool, c: Option<char>)
    requires 0 < at <= |s| && InWord(s, start, word, at, false, Some(s[at - 1])) && !IsSpace(s[at - 1])
    requires if at < |s| then c == Some(s[at]) && pos == at + 1 && !eof else c == None && pos == at && eof
    ensures InWord(s, start, word + [s[at - 1]], pos, eof, c)
  {
  }

  lemma RunThenSpace(s: string, start: nat, word: string, at: nat)
    requires word != "" && start + |word| == at < |s| && word == s[start..at]
    requires (forall k :: 0 <= k < |word| ==> !IsSpace(word[k])) && IsSpace(s[at])
    ensures Runs(s[start..]) == [word] + Runs(s[at + 1..])
  {
    RunAt(s, start, word);
    SpaceAt(s, at);
    SameTail(Runs(s[start..]), word, Runs(s[at..]), Runs(s[at + 1..]));
  }

  lemma SameTail<T>(all: seq<T>, head: T, a: seq<T>, b: seq<T>)
    requires all == [head] + a && a == b
    ensures all == [head] + b
  {
  }

  lemma WordEnds(s: string, start: nat, word: string, pos: nat, eof: bool, c: Option<char>)
    requires pos <= |s| && InWord(s, start, word, pos, eof, c) && (!eof ==> c.Some? && IsSpace(c.value))
    ensures start <= |s| && Runs(s[start..]) == [word] + Runs(s[pos..])
  {
    if eof { RunAt(s, start, word); } else { RunThenSpace(s, start, word, pos - 1); }
  }

  /** The first of `runs` has been read into a buffer of `size` bytes, which then has `now`. */
  ghost predicate Took(runs: seq<string>, size: nat, arg: Option<CString>, rest: seq<string>, now: nat) {
    && runs != [] && rest == runs[1..] && now == Grown(size, |runs[0]|)
    && arg == if |runs[0]| < now then Some(Duplicated(runs[0])) else None
  }

  /** What reading `runs` with such a buffer comes to after `args`. */
  function ReadOn(args: seq<CString>, size: nat, runs: seq<string>): Result<seq<CString>> {
    if StoresFit(size, runs) then Success(args + Copies(runs)) else Overrun
  }

  lemma {:induction false} ReadOnStarts(s: string)
    ensures ReadOn([], 0, Runs(s)) == ReadBack(s)
  {
    assert [] + Copies(Runs(s)) == Copies(Runs(s));
  }

  lemma ReadOnEnds(args: seq<CString>, size: nat)
    ensures ReadOn(args, size, []) == Success(args)
  {
    assert args + Copies([]) == args;
  }

  lemma ReadOneMore(args: seq<CString>, size: nat, runs: seq<string>, arg: Option<CString>, rest: seq<string>, now: nat)
    requires Took(runs, size, arg, rest, now)
    ensures ReadOn(args, size, runs) == if arg.None? then Overrun else ReadOn(args + [arg.value], now, rest)
  {
    if arg.Some? {
      assert args + Copies(runs) == args + [arg.value] + Copies(rest);
    }
  }

  lemma {:induction false} WordIs(s: string, n: nat)
    requires n <= |s| && (forall k :: 0 <= k < n ==> !IsSpace(s[k])) && (n < |s| ==> IsSpace(s[n]))
    ensures WordLength(s) == n
  {
    if n > 0 { WordIs(s[1..], n - 1); }
  }

  lemma {:induction false} FirstRun(s: string, n: nat)
    requires 0 < n <= |s| && (forall k :: 0 <= k < n ==> !IsSpace(s[k])) && (n < |s| ==> IsSpace(s[n]))
    ensures Runs(s) == [s[..n]] + Runs(s[n..])
  {
    WordIs(s, n);
  }

  lemma {:induction false} SpaceFirst(s: string)
    requires s != "" && IsSpace(s[0])
    ensures Runs(s) == Runs(s[1..])
  {
  }

  // ------------------------------------------------------------------------------------
  // Writing.

  function Lines(args: seq<CString>): string {
    if args == [] then "" else args[0] + [NEWLINE] + Lines(args[1..])
  }

  method WriteResponseFile(args: seq<CString>) returns (content: string)
    ensures content == Lines(args)
  {
    content := "";
    for i := 0 to |args|
      invariant content + Lines(args[i..]) == Lines(args)
    {
      content := content + args[i] + [NEWLINE];
      assert args[i..][1..] == args[i + 1..];
    }
  }

  /** An argument a response file can hold. */
  predicate Plain(a: CString) {
    a != "" && forall k :: 0 <= k < |a| ==> !IsSpace(a[k])
  }

  lemma {:induction false} DuplicatedWhole(s: string)
    requires NoNul(s)
    ensures Duplicated(s) == s
  {
    if s != "" { DuplicatedWhole(s[1..]); }
  }

  lemma {:induction false} RunsOfLine(a: CString, rest: string)
    requires Plain(a)
    ensures Runs(a + [NEWLINE] + rest) == [a] + Runs(rest)
  {
    var s := a + [NEWLINE] + rest;
    FirstRun(s, |a|);
    assert s[..|a|] == a;
    SpaceFirst(s[|a|..]);
    assert s[|a|..][1..] == rest;
  }

  lemma {:induction false} PlainRoundTrip(args: seq<CString>)
    requires forall a :: a in args ==> Plain(a)
    ensures Runs(Lines(args)) == args && Words(Lines(args)) == args
  {
    if args != [] {
      PlainRoundTrip(args[1..]);
      RunsOfLine(args[0], Lines(args[1..]));
      assert args == [args[0]] + args[1..];
    }
    forall k | 0 <= k < |args| ensures Duplicated(args[k]) == args[k] { DuplicatedWhole(args[k]); }
  }

  lemma {:induction false} RunsArePlain(s: string)
    requires NoNul(s)
    ensures forall a :: a in Runs(s) ==> NoNul(a) && Plain(a)
    decreases |s|
  {
    if s != "" {
      if IsSpace(s[0]) {
        RunsArePlain(s[1..]);
      } else {
        var n := WordLength(s);
        assert NoNul(s[..n]) && NoNul(s[n..]);
        RunsArePlain(s[n..]);
      }
    }
  }

  lemma WordsArePlain(s: string)
    requires NoNul(s)
    ensures forall a :: a in Words(s) ==> Plain(a)
  {
    RunsArePlain(s);
    forall k | 0 <= k < |Runs(s)| ensures Plain(Words(s)[k]) {
      assert Runs(s)[k] in Runs(s);
      DuplicatedWhole(Runs(s)[k]);
    }
  }

  lemma {:induction false} LinesNoNul(args: seq<CString>)
    ensures NoNul(Lines(args))
  {
    if args != [] { LinesNoNul(args[1..]); }
  }

  /** What a response file gives back. */
  ghost predicate Survives(args: seq<CString>) {
    (forall a :: a in args ==> Plain(a)) && LeaveRoom(args)
  }

  /** What is written is read back as it was exactly when no argument is empty or has white
      space in it and none fills the reader's buffer to the last byte. */
  lemma {:induction false} WriteThenRead(args: seq<CString>)
    ensures ReadBack(Lines(args)) == Success(args) <==> Survives(args)
  {
    LinesNoNul(args);
    WordsArePlain(Lines(args));
    if forall a :: a in args ==> Plain(a) {
      PlainRoundTrip(args);
      StoresFitMeans(args);
    }
  }

  /** One argument of 64 characters is enough to write past the end of the buffer. */
  lemma SixtyFourCharacters()
    ensures var a: CString := seq(64, _ => 'x'); Plain(a) && ReadBack(Lines([a])) == Overrun
  {
    var a: CString := seq(64, _ => 'x');
    PlainRoundTrip([a]);
    StoresFitMeans([a]);
    assert [a][0] == a && |a| % CHUNK == 0;
    assert !LongerBefore([a], 0);
  }

  /** One plain argument of n characters comes back exactly when n is no multiple of 64. */
  lemma {:induction false} OneWordComesBack(a: CString)
    requires Plain(a)
    ensures ReadBack(Lines([a])) == Success([a]) <==> |a| % 64 != 0
  {
    WriteThenRead([a]);
    assert a in [a] && [a][0] == a;
    assert !LongerBefore([a], 0);
  }

  /** Six characters, and no other, part two words. */
  lemma {:induction false} WordsPartAt(c: char)
    ensures Runs(['x', c, 'y']) == if c as int in {9, 10, 11, 12, 13, 32} then ["x", "y"] else [['x', c, 'y']]
  {
    var s := ['x', c, 'y'];
    EndOfFile();
    if IsSpace(c) {
      FirstRun(s, 1);
      assert s[..1] == "x" && s[1..] == [c, 'y'];
      SpaceFirst([c, 'y']);
      assert [c, 'y'][1..] == "y";
      FirstRun("y", 1);
      assert "y"[..1] == "y" && "y"[1..] == "";
    } else {
      FirstRun(s, 3);
      assert s[..3] == s && s[3..] == "";
    }
  }

  lemma EndOfFile()
    ensures Runs("") == []
  {
  }

  function CountOf(s: string, c: char): nat {
    if s == "" then 0 else (if s[0] == c then 1 else 0) + CountOf(s[1..], c)
  }

  lemma {:induction false} CountOfConcat(s: string, t: string, c: char)
    ensures CountOf(s + t, c) == CountOf(s, c) + CountOf(t, c)
  {
    if s == "" {
      EmptyConcat(t);
    } else {
      TailOfConcat(s, t);
      CountOfConcat(s[1..], t, c);
    }
  }

  lemma {:induction false} NoneToCount(s: string, c: char)
    requires c !in s
    ensures CountOf(s, c) == 0
  {
    if s != "" { NoneToCount(s[1..], c); }
  }

  /** A written file has a line for every argument, if none has a line end in it. */
  lemma {:induction false} OneLineEach(args: seq<CString>)
    requires forall a :: a in args ==> '\n' !in a
    ensures CountOf(Lines(args), '\n') == |args|
    ensures args != [] ==> Lines(args) != "" && Lines(args)[|Lines(args)| - 1] == '\n'
  {
    if args != [] {
      OneLineEach(args[1..]);
      NoneToCount(args[0], '\n');
      CountOfConcat(args[0], [NEWLINE], '\n');
      CountOfConcat(args[0] + [NEWLINE], Lines(args[1..]), '\n');
      assert CountOf([NEWLINE], '\n') == 1 by { assert [NEWLINE][1..] == ""; }
    }
  }
}

/** lib/flag.c: ReorderArgsForBakedIn, which sorts an argument list in place into this
    program's flags and the arguments of the program it will run. */
module Args {
  import opened Options
  import opened Seqs

  /** An argument pointer: two of them are the same pointer only if their ids agree. */
  datatype Arg = Arg(id: nat, text: string)

  /** What FindFlagForName says of an argument: not a flag, a FLAG_BOOL, or one of the
      types that take a parameter. */
  datatype Kind = Unknown | Switch | Valued

  type Classifier = Arg -> Kind

  // ------------------------------------------------------------------------------------
  // Specification: which arguments are ours.

  /** Argument i is the parameter of the flag before it. */
  predicate IsParameter(kind: Classifier, args: seq<Arg>, i: nat)
    requires i < |args|
    decreases i, 0
  {
    i > 0 && IsFlag(kind, args, i - 1) && kind(args[i - 1]) == Valued
  }

  /** Argument i is a flag we recognise, and not the parameter of another. */
  predicate IsFlag(kind: Classifier, args: seq<Arg>, i: nat)
    requires i < |args|
    decreases i, 1
  {
    kind(args[i]) != Unknown && !IsParameter(kind, args, i)
  }

  predicate IsOwn(kind: Classifier, args: seq<Arg>, i: nat)
    requires i < |args|
  {
    IsFlag(kind, args, i) || IsParameter(kind, args, i)
  }

  /** The first n arguments that are ours, or that are not, in order. */
  function Select(kind: Classifier, args: seq<Arg>, n: nat, own: bool): seq<Arg>
    requires n <= |args|
  {
    if n == 0 then []
    else Select(kind, args, n - 1, own) + if IsOwn(kind, args, n - 1) == own then [args[n - 1]] else []
  }

  function Own(kind: Classifier, args: seq<Arg>): seq<Arg> { Select(kind, args, |args|, true) }

  function Others(kind: Classifier, args: seq<Arg>): seq<Arg> { Select(kind, args, |args|, false) }

  /** args without its first element, with the callee moved to the front if it is there. */
  function CalleeFirst(args: seq<Arg>, callee: Option<Arg>): (r: seq<Arg>)
    ensures |r| == |args|
  {
    if callee.Some? && callee.value in args then
      var i := IndexOf(args, callee.value);
      [callee.value] + args[..i] + args[i + 1..]
    else args
  }

  function IndexOf(args: seq<Arg>, a: Arg): (i: nat)
    requires a in args
    ensures i < |args| && args[i] == a && a !in args[..i]
  {
    if args[0] == a then 0 else 1 + IndexOf(args[1..], a)
  }

  /** The whole of ReorderArgsForBakedIn. */
  function Reordered(kind: Classifier, args: seq<Arg>, callee: Option<Arg>): seq<Arg>
    requires args != []
  {
    var moved := CalleeFirst(args[1..], callee);
    [args[0]] + Own(kind, moved) + Others(kind, moved)
  }

  // ------------------------------------------------------------------------------------
  // The code.

  /** memmove of arguments 1..i one place up. */
  method ShiftUp(args: array<Arg>, i: nat)
    requires 1 <= i < args.Length
    modifies args
    ensures forall j :: 0 <= j < 2 || i < j < args.Length ==> j < args.Length ==> args[j] == old(args[j])
    ensures forall j :: 2 <= j <= i ==> args[j] == old(args[j - 1])
  {
    var k := i;
    while k > 1
      invariant 1 <= k <= i
      invariant forall j :: 0 <= j <= k || i < j < args.Length ==> args[j] == old(args[j])
      invariant forall j :: k < j <= i ==> args[j] == old(args[j - 1])
    {
      args[k] := args[k - 1];
      k := k - 1;
    }
  }

  lemma MovedToFront(was: seq<Arg>, now: seq<Arg>, callee: Arg, i: nat)
    requires |now| == |was| && i < |was| && now[0] == callee
    requires forall j :: 1 <= j <= i ==> now[j] == was[j - 1]
    requires forall j :: i < j < |was| ==> now[j] == was[j]
    ensures now == [callee] + was[..i] + was[i + 1..]
  {
  }

  /** The callee has been found at i. */
  method MoveUp(args: array<Arg>, callee: Arg, i: nat, ghost was: seq<Arg>)
    requires 1 <= i < args.Length && was == args[1..]
    requires callee == was[i - 1] && callee !in was[..i - 1]
    modifies args
    ensures args[0] == old(args[0])
    ensures args[1..] == CalleeFirst(was, Some(callee))
  {
    SameIndex(was, callee, i - 1);
    ShiftUp(args, i);
    args[1] := callee;
    MovedToFront(was, args[1..], callee, i - 1);
  }

  lemma NotYetFound(was: seq<Arg>, callee: Arg, i: nat)
    requires i < |was| && callee !in was[..i] && was[i] != callee
    ensures callee !in was[..i + 1]
  {
    PrefixOneMore(was, i);
  }

  method MoveCallee(args: array<Arg>, callee: Arg)
    requires args.Length > 0
    modifies args
    ensures args[0] == old(args[0])
    ensures args[1..] == CalleeFirst(old(args[1..]), Some(callee))
  {
    ghost var was := args[1..];
    var i := 1;
    while i < args.Length
      invariant 1 <= i <= args.Length
      invariant args[0] == old(args[0]) && args[1..] == was
      invariant callee !in was[..i - 1]
    {
      assert args[i] == was[i - 1];
      if args[i] == callee {
        MoveUp(args, callee, i, was);
        return;
      }
      NotYetFound(was, callee, i - 1);
      i := i + 1;
    }
    WholePrefix(was);
  }

  lemma {:induction false} SameIndex(args: seq<Arg>, a: Arg, i: nat)
    requires i < |args| && args[i] == a && a !in args[..i]
    ensures a in args && IndexOf(args, a) == i
  {
    if i > 0 {
      assert args[..i][0] == args[0];
      assert args[1..][..i - 1] == args[..i][1..];
      SameIndex(args[1..], a, i - 1);
    }
  }

  /** Arguments r - 1 of `was` on are still to be read, the ones before are sorted. */
  ghost predicate Sorted(kind: Classifier, was: seq<Arg>, now: seq<Arg>, w: nat, r: nat, calleeArgs: seq<Arg>) {
    && |now| == |was| + 1 && 1 <= w <= r <= |now|
    && now[1..w] == Select(kind, was, r - 1, true)
    && calleeArgs == Select(kind, was, r - 1, false)
    && w + |calleeArgs| == r
    && forall k :: r <= k < |now| ==> now[k] == was[k - 1]
  }

  lemma OwnOneMore(kind: Classifier, was: seq<Arg>, now: seq<Arg>, w: nat, r: nat, calleeArgs: seq<Arg>)
    requires Sorted(kind, was, now, w, r, calleeArgs) && r < |now| && IsOwn(kind, was, r - 1)
    ensures Sorted(kind, was, now[w := now[r]], w + 1, r + 1, calleeArgs)
  {
    var next := now[w := now[r]];
    assert next[1..w + 1] == now[1..w] + [was[r - 1]];
  }

  lemma OtherOneMore(kind: Classifier, was: seq<Arg>, now: seq<Arg>, w: nat, r: nat, calleeArgs: seq<Arg>)
    requires Sorted(kind, was, now, w, r, calleeArgs) && r < |now| && !IsOwn(kind, was, r - 1)
    ensures Sorted(kind, was, now, w, r + 1, calleeArgs + [now[r]])
  {
  }

  /** Take argument r for our own. */
  method TakeOwn(args: array<Arg>, kind: Classifier, ghost was: seq<Arg>, w: nat, r: nat, ghost calleeArgs: seq<Arg>)
    requires Sorted(kind, was, args[..], w, r, calleeArgs) && r < args.Length && IsOwn(kind, was, r - 1)
    modifies args
    ensures args[0] == old(args[0])
    ensures Sorted(kind, was, args[..], w + 1, r + 1, calleeArgs)
  {
    OwnOneMore(kind, was, args[..], w, r, calleeArgs);
    args[w] := args[r];
  }

  /** How argument i reads, which is no parameter, and the two after it. */
  lemma {:induction false} ReadingNext(kind: Classifier, args: seq<Arg>, i: nat)
    requires i < |args| && !IsParameter(kind, args, i)
    ensures IsOwn(kind, args, i) <==> kind(args[i]) != Unknown
    ensures i + 1 < |args| ==>
      && (IsParameter(kind, args, i + 1) <==> kind(args[i]) == Valued)
      && (kind(args[i]) == Valued ==> IsOwn(kind, args, i + 1))
    ensures i + 2 < |args| && kind(args[i]) == Valued ==> !IsParameter(kind, args, i + 2)
  {
  }

  /** One turn of the loop over the arguments. */
  method GatherNext(args: array<Arg>, kind: Classifier, ghost was: seq<Arg>, w: nat, r: nat, calleeArgs: seq<Arg>)
    returns (w': nat, r': nat, calleeArgs': seq<Arg>)
    requires Sorted(kind, was, args[..], w, r, calleeArgs) && r < args.Length && !IsParameter(kind, was, r - 1)
    modifies args
    ensures args[0] == old(args[0]) && r < r'
    ensures Sorted(kind, was, args[..], w', r', calleeArgs')
    ensures r' < args.Length ==> !IsParameter(kind, was, r' - 1)
  {
    assert args[r] == args[..][r] == was[r - 1];
    ReadingNext(kind, was, r - 1);
    w', r', calleeArgs' := w, r, calleeArgs;
    var f := kind(args[r]);
    if f != Unknown {
      TakeOwn(args, kind, was, w, r, calleeArgs);
      w' := w + 1;
      if f != Switch && r + 1 < args.Length {
        r' := r + 1;
        TakeOwn(args, kind, was, w', r', calleeArgs);
        w' := w' + 1;
      }
    } else {
      OtherOneMore(kind, was, args[..], w, r, calleeArgs);
      calleeArgs' := calleeArgs + [args[r]];
    }
    r' := r' + 1;
  }

  /** Reading and writing through one array: the write index never passes the read index. */
  method GatherFlags(args: array<Arg>, kind: Classifier) returns (w: nat, calleeArgs: seq<Arg>)
    requires args.Length > 0
    modifies args
    ensures args[0] == old(args[0])
    ensures Sorted(kind, old(args[1..]), args[..], w, args.Length, calleeArgs)
  {
    ghost var was := args[1..];
    calleeArgs := [];
    w := 1;
    var r := 1;
    while r < args.Length
      invariant args[0] == old(args[0])
      invariant Sorted(kind, was, args[..], w, r, calleeArgs)
      invariant r < args.Length ==> !IsParameter(kind, was, r - 1)
      decreases args.Length - r
    {
      w, r, calleeArgs := GatherNext(args, kind, was, w, r, calleeArgs);
    }
  }

  method SortFlags(args: array<Arg>, kind: Classifier)
    requires args.Length > 0
    modifies args
    ensures args[0] == old(args[0])
    ensures args[1..] == Own(kind, old(args[1..])) + Others(kind, old(args[1..]))
  {
    var w, calleeArgs := GatherFlags(args, kind);
    ghost var own := args[1..w];
    for i := 0 to |calleeArgs|
      invariant args[0] == old(args[0])
      invariant args[1..w] == own
      invariant args[w..w + i] == calleeArgs[..i]
    {
      args[w + i] := calleeArgs[i];
    }
    assert args[1..] == args[1..w] + args[w..w + |calleeArgs|];
  }

  method ReorderArgsForBakedIn(args: array<Arg>, callee: Option<Arg>, kind: Classifier)
    requires args.Length > 0
    modifies args
    ensures args[..] == Reordered(kind, old(args[..]), callee)
  {
    ghost var was := args[..];
    if callee.Some? {
      MoveCallee(args, callee.value);
    }
    assert was[1..] == old(args[1..]);
    ghost var moved := args[1..];
    SortFlags(args, kind);
    HeadAndTail(args[..]);
    assert args[..][1..] == args[1..];
    ConcatThree([args[0]], Own(kind, moved), Others(kind, moved));
  }

  // ------------------------------------------------------------------------------------
  // What the reordering is.

  /** Both halves keep the order of the list: every argument is found in its half right
      after those of the same half that came before it. */
  lemma {:induction false} StablePartition(kind: Classifier, args: seq<Arg>, n: nat, i: nat)
    requires i < n <= |args|
    ensures var own, k := IsOwn(kind, args, i), |Select(kind, args, i, IsOwn(kind, args, i))|;
      && k < |Select(kind, args, n, own)| && Select(kind, args, n, own)[k] == args[i]
      && Select(kind, args, n, own)[..k] == Select(kind, args, i, own)
  {
    if i < n - 1 { StablePartition(kind, args, n - 1, i); }
  }

  /** How often x occurs among the first n arguments. */
  function CountTo(s: seq<Arg>, n: nat, x: Arg): nat
    requires n <= |s|
  {
    if n == 0 then 0 else CountTo(s, n - 1, x) + if s[n - 1] == x then 1 else 0
  }

  function Count(s: seq<Arg>, x: Arg): nat { CountTo(s, |s|, x) }

  lemma {:induction false} CountPrefix(s: seq<Arg>, t: seq<Arg>, n: nat, x: Arg)
    requires n <= |s|
    ensures CountTo(s + t, n, x) == CountTo(s, n, x)
  {
    if n > 0 { CountPrefix(s, t, n - 1, x); }
  }

  lemma {:induction false} CountSuffix(s: seq<Arg>, t: seq<Arg>, n: nat, x: Arg)
    requires n <= |t|
    ensures CountTo(s + t, |s| + n, x) == Count(s, x) + CountTo(t, n, x)
  {
    if n > 0 { CountSuffix(s, t, n - 1, x); } else { CountPrefix(s, t, |s|, x); }
  }

  lemma CountConcat(s: seq<Arg>, t: seq<Arg>, x: Arg)
    ensures Count(s + t, x) == Count(s, x) + Count(t, x)
  {
    CountSuffix(s, t, |t|, x);
  }

  lemma CountOne(a: Arg, x: Arg)
    ensures Count([a], x) == if a == x then 1 else 0
  {
    assert CountTo([a], 1, x) == CountTo([a], 0, x) + if a == x then 1 else 0;
  }

  lemma SelectStep(kind: Classifier, args: seq<Arg>, n: nat)
    requires n < |args|
    ensures var a := [args[n]];
      if IsOwn(kind, args, n) then
        && Select(kind, args, n + 1, true) == Select(kind, args, n, true) + a
        && Select(kind, args, n + 1, false) == Select(kind, args, n, false)
      else
        && Select(kind, args, n + 1, true) == Select(kind, args, n, true)
        && Select(kind, args, n + 1, false) == Select(kind, args, n, false) + a
  {
  }

  lemma {:induction false} CountSplits(kind: Classifier, args: seq<Arg>, n: nat, x: Arg)
    requires n <= |args|
    ensures Count(Select(kind, args, n, true), x) + Count(Select(kind, args, n, false), x) == CountTo(args, n, x)
  {
    if n > 0 {
      CountSplits(kind, args, n - 1, x);
      SelectStep(kind, args, n - 1);
      CountConcat(Select(kind, args, n - 1, true), [args[n - 1]], x);
      CountConcat(Select(kind, args, n - 1, false), [args[n - 1]], x);
      CountOne(args[n - 1], x);
    }
  }

  lemma {:induction false} SelectLengths(kind: Classifier, args: seq<Arg>, n: nat)
    requires n <= |args|
    ensures |Select(kind, args, n, true)| + |Select(kind, args, n, false)| == n
  {
    if n > 0 { SelectLengths(kind, args, n - 1); }
  }

  lemma CalleeFirstPermutes(args: seq<Arg>, callee: Option<Arg>, x: Arg)
    ensures Count(CalleeFirst(args, callee), x) == Count(args, x)
  {
    if callee.Some? && callee.value in args {
      var i := IndexOf(args, callee.value);
      var a, before, after := [callee.value], args[..i], args[i + 1..];
      assert args == before + a + after;
      CountConcat(before + a, after, x);
      CountConcat(before, a, x);
      CountConcat(a + before, after, x);
      CountConcat(a, before, x);
    }
  }

  /** No argument is lost, doubled or altered, and the program's name stays first. */
  lemma ReorderPermutes(kind: Classifier, args: seq<Arg>, callee: Option<Arg>)
    requires args != []
    ensures var r := Reordered(kind, args, callee);
      |r| == |args| && r[0] == args[0] && forall x :: Count(r, x) == Count(args, x)
  {
    var moved := CalleeFirst(args[1..], callee);
    var own, others := Own(kind, moved), Others(kind, moved);
    SelectLengths(kind, moved, |moved|);
    forall x ensures Count([args[0]] + own + others, x) == Count(args, x) {
      CalleeFirstPermutes(args[1..], callee, x);
      CountSplits(kind, moved, |moved|, x);
      CountConcat([args[0]] + own, others, x);
      CountConcat([args[0]], own, x);
      CountConcat([args[0]], args[1..], x);
      assert args == [args[0]] + args[1..];
    }
  }

  lemma {:induction false} OthersAreUnknown(kind: Classifier, args: seq<Arg>, n: nat)
    requires n <= |args|
    ensures forall a :: a in Select(kind, args, n, false) ==> kind(a) == Unknown
  {
    if n > 0 { OthersAreUnknown(kind, args, n - 1); }
  }

  /** The callee, if it is there and no flag, comes right after our own arguments, and no
      flag of ours comes after it. */
  lemma CalleeLeadsTheRest(kind: Classifier, args: seq<Arg>, callee: Arg)
    requires args != [] && callee in args[1..] && kind(callee) == Unknown
    ensures var r, moved := Reordered(kind, args, Some(callee)), CalleeFirst(args[1..], Some(callee));
      && r[1..] == Own(kind, moved) + Others(kind, moved)
      && Others(kind, moved) != [] && Others(kind, moved)[0] == callee
      && forall a :: a in Others(kind, moved) ==> kind(a) == Unknown
  {
    var moved := CalleeFirst(args[1..], Some(callee));
    StablePartition(kind, moved, |moved|, 0);
    OthersAreUnknown(kind, moved, |moved|);
  }

  lemma {:induction false} ReadingIsLocal(kind: Classifier, a: seq<Arg>, b: seq<Arg>, i: nat)
    requires i < |a| && i < |b| && a[..i + 1] == b[..i + 1]
    ensures IsFlag(kind, a, i) == IsFlag(kind, b, i) && IsParameter(kind, a, i) == IsParameter(kind, b, i)
  {
    assert a[i] == a[..i + 1][i] == b[i];
    if i > 0 {
      assert a[..i] == a[..i + 1][..i] == b[..i];
      ReadingIsLocal(kind, a, b, i - 1);
    }
  }

  /** The list ends in a flag that wants a parameter. */
  predicate WantsMore(kind: Classifier, args: seq<Arg>) {
    args != [] && IsFlag(kind, args, |args| - 1) && kind(args[|args| - 1]) == Valued
  }

  /** What comes after a list that wants no more reads as if it stood alone. */
  lemma {:induction false} ReadingAfter(kind: Classifier, a: seq<Arg>, b: seq<Arg>, i: nat)
    requires !WantsMore(kind, a) && i < |b|
    ensures IsFlag(kind, a + b, |a| + i) == IsFlag(kind, b, i)
    ensures IsOwn(kind, a + b, |a| + i) == IsOwn(kind, b, i)
  {
    assert (a + b)[|a| + i] == b[i];
    if i > 0 {
      ReadingAfter(kind, a, b, i - 1);
      assert (a + b)[|a| + i - 1] == b[i - 1];
    } else if a != [] {
      WholePrefix(a);
      assert (a + b)[..|a|] == a && (a + b)[|a| - 1] == a[|a| - 1];
      ReadingIsLocal(kind, a + b, a, |a| - 1);
    }
  }

  lemma {:induction false} SelectIsLocal(kind: Classifier, a: seq<Arg>, b: seq<Arg>, n: nat, own: bool)
    requires n <= |a|
    ensures Select(kind, a + b, n, own) == Select(kind, a, n, own)
  {
    if n > 0 {
      SelectIsLocal(kind, a, b, n - 1, own);
      assert (a + b)[..n] == a[..n];
      ReadingIsLocal(kind, a + b, a, n - 1);
    }
  }

  lemma SelectLast(kind: Classifier, args: seq<Arg>, n: nat, own: bool)
    requires n < |args|
    ensures Select(kind, args, n + 1, own)
         == if IsOwn(kind, args, n) == own then Select(kind, args, n, own) + [args[n]] else Select(kind, args, n, own)
  {
  }

  lemma {:induction false} SelectInTwo(kind: Classifier, a: seq<Arg>, b: seq<Arg>, n: nat, own: bool)
    requires !WantsMore(kind, a) && n <= |b|
    ensures Select(kind, a + b, |a| + n, own) == Select(kind, a, |a|, own) + Select(kind, b, n, own)
  {
    if n == 0 {
      SelectIsLocal(kind, a, b, |a|, own);
      EmptyConcat(Select(kind, a, |a|, own));
    } else {
      SelectInTwo(kind, a, b, n - 1, own);
      ReadingAfter(kind, a, b, n - 1);
      InConcat(a, b, n - 1);
      SelectLast(kind, a + b, |a| + n - 1, own);
      SelectLast(kind, b, n - 1, own);
      if IsOwn(kind, b, n - 1) == own {
        ConcatThree(Select(kind, a, |a|, own), Select(kind, b, n - 1, own), [b[n - 1]]);
      }
    }
  }

  /** A list that wants no more is sorted apart from what follows it. */
  lemma ReadInTwo(kind: Classifier, a: seq<Arg>, b: seq<Arg>)
    requires !WantsMore(kind, a)
    ensures Own(kind, a + b) == Own(kind, a) + Own(kind, b)
    ensures Others(kind, a + b) == Others(kind, a) + Others(kind, b)
  {
    SelectInTwo(kind, a, b, |b|, true);
    SelectInTwo(kind, a, b, |b|, false);
  }

  lemma {:induction false} OneArgument(kind: Classifier, a: Arg)
    ensures WantsMore(kind, [a]) == (kind(a) == Valued)
    ensures Own(kind, [a]) == (if kind(a) == Unknown then [] else [a])
    ensures Others(kind, [a]) == if kind(a) == Unknown then [a] else []
  {
    assert Select(kind, [a], 0, true) == [] && Select(kind, [a], 0, false) == [];
  }

  lemma {:induction false} FlagAndParameter(kind: Classifier, a: Arg, b: Arg)
    requires kind(a) == Valued
    ensures !WantsMore(kind, [a, b]) && Own(kind, [a, b]) == [a, b] && Others(kind, [a, b]) == []
  {
    var s := [a, b];
    assert IsFlag(kind, s, 0) && IsParameter(kind, s, 1);
    assert Select(kind, s, 1, true) == Select(kind, s, 0, true) + [a] == [a];
    assert Select(kind, s, 1, false) == Select(kind, s, 0, false) + [] == [];
  }

  /** The flags as a reader takes them, front to back: an unknown argument is passed over, a
      switch stands alone, and any other flag takes the next argument, whatever it is. */
  lemma {:induction false} ReadFromFront(kind: Classifier, a: Arg, rest: seq<Arg>)
    ensures Own(kind, []) == [] && Others(kind, []) == []
    ensures var all := [a] + rest;
      if kind(a) == Unknown then Own(kind, all) == Own(kind, rest) && Others(kind, all) == [a] + Others(kind, rest)
      else if kind(a) == Switch || rest == [] then Own(kind, all) == [a] + Own(kind, rest) && Others(kind, all) == Others(kind, rest)
      else Own(kind, all) == [a, rest[0]] + Own(kind, rest[1..]) && Others(kind, all) == Others(kind, rest[1..])
  {
    OneArgument(kind, a);
    if kind(a) != Valued {
      ReadInTwo(kind, [a], rest);
    } else if rest == [] {
      EmptyConcat([a]);
    } else {
      FlagAndParameter(kind, a, rest[0]);
      ReadInTwo(kind, [a, rest[0]], rest[1..]);
      assert [a] + rest == [a, rest[0]] + rest[1..];
    }
    EmptyConcat(Own(kind, rest));
    EmptyConcat(Others(kind, rest));
  }

  // ------------------------------------------------------------------------------------
  // Moving the callee disturbs nothing else.

  /** args without any occurrence of a. */
  function Without(args: seq<Arg>, a: Arg): seq<Arg> {
    if args == [] then []
    else if args[0] == a then Without(args[1..], a)
    else [args[0]] + Without(args[1..], a)
  }

  lemma {:induction false} WithoutOfConcat(s: seq<Arg>, t: seq<Arg>, a: Arg)
    ensures Without(s + t, a) == Without(s, a) + Without(t, a)
  {
    if s == [] {
      EmptyConcat(t);
      EmptyConcat(Without(t, a));
    } else {
      TailOfConcat(s, t);
      WithoutOfConcat(s[1..], t, a);
      if s[0] != a { ConcatThree([s[0]], Without(s[1..], a), Without(t, a)); }
    }
  }

  lemma {:induction false} WithoutItself(a: Arg)
    ensures Without([a], a) == []
  {
  }

  /** Where the callee is, and what the list is then. */
  lemma {:induction false} CalleeSplits(args: seq<Arg>, callee: Arg)
    requires callee in args
    ensures var i := IndexOf(args, callee);
      && args == args[..i] + ([callee] + args[i + 1..])
      && CalleeFirst(args, Some(callee)) == [callee] + (args[..i] + args[i + 1..])
  {
    var i := IndexOf(args, callee);
    SplitAround(args, i);
    ConcatThree([callee], args[..i], args[i + 1..]);
  }


  /** The arguments other than the callee keep their order when it is moved. */
  lemma {:induction false} CalleeMovesAlone(args: seq<Arg>, callee: Arg)
    ensures Without(CalleeFirst(args, Some(callee)), callee) == Without(args, callee)
  {
    if callee in args {
      var i := IndexOf(args, callee);
      var before, after := args[..i], args[i + 1..];
      CalleeSplits(args, callee);
      WithoutItself(callee);
      WithoutOfConcat(before, [callee] + after, callee);
      WithoutOfConcat([callee], after, callee);
      WithoutOfConcat([callee], before + after, callee);
      WithoutOfConcat(before, after, callee);
      EmptyConcat(Without(after, callee));
      EmptyConcat(Without(before + after, callee));
    }
  }

  /** s is t with some elements left out. */
  predicate LeavesOut(s: seq<Arg>, t: seq<Arg>) {
    s == [] || (t != [] && ((s[0] == t[0] && LeavesOut(s[1..], t[1..])) || LeavesOut(s, t[1..])))
  }

  lemma {:induction false} LeavesOutLast(s: seq<Arg>, t: seq<Arg>, a: Arg)
    requires LeavesOut(s, t)
    ensures LeavesOut(s, t + [a]) && LeavesOut(s + [a], t + [a])
    decreases |t|
  {
    if t == [] {
      EmptyConcat([a]);
    } else {
      TailOfConcat(t, [a]);
      if s == [] {
        EmptyConcat([a]);
        LeavesOutLast(s, t[1..], a);
      } else {
        TailOfConcat(s, [a]);
        if s[0] == t[0] && LeavesOut(s[1..], t[1..]) { LeavesOutLast(s[1..], t[1..], a); } else { LeavesOutLast(s, t[1..], a); }
      }
    }
  }

  lemma {:induction false} SelectLeavesOut(kind: Classifier, args: seq<Arg>, n: nat, own: bool)
    requires n <= |args|
    ensures LeavesOut(Select(kind, args, n, own), args[..n])
  {
    if n > 0 {
      SelectLeavesOut(kind, args, n - 1, own);
      LeavesOutLast(Select(kind, args, n - 1, own), args[..n - 1], args[n - 1]);
      PrefixOneMore(args, n - 1);
      SelectLast(kind, args, n - 1, own);
    }
  }

  lemma {:induction false} WithoutLeavesOut(s: seq<Arg>, t: seq<Arg>, a: Arg)
    requires LeavesOut(s, t)
    ensures LeavesOut(Without(s, a), Without(t, a))
    decreases |t|
  {
    if s != [] {
      if s[0] == t[0] && LeavesOut(s[1..], t[1..]) {
        WithoutLeavesOut(s[1..], t[1..], a);
        if t[0] != a {
          TailOfConcat([s[0]], Without(s[1..], a));
          TailOfConcat([t[0]], Without(t[1..], a));
        }
      } else {
        WithoutLeavesOut(s, t[1..], a);
        if t[0] != a { TailOfConcat([t[0]], Without(t[1..], a)); }
      }
    }
  }

  /** Both halves of the result, the callee apart, keep the order the arguments had. */
  lemma {:induction false} HalvesKeepOrder(kind: Classifier, args: seq<Arg>, callee: Arg)
    requires args != []
    ensures var moved, rest := CalleeFirst(args[1..], Some(callee)), Without(args[1..], callee);
      && Reordered(kind, args, Some(callee)) == [args[0]] + Own(kind, moved) + Others(kind, moved)
      && LeavesOut(Without(Own(kind, moved), callee), rest) && LeavesOut(Without(Others(kind, moved), callee), rest)
  {
    var moved := CalleeFirst(args[1..], Some(callee));
    CalleeMovesAlone(args[1..], callee);
    WholePrefix(moved);
    SelectLeavesOut(kind, moved, |moved|, true);
    SelectLeavesOut(kind, moved, |moved|, false);
    WithoutLeavesOut(Own(kind, moved), moved, callee);
    WithoutLeavesOut(Others(kind, moved), moved, callee);
  }

  /** What comes before an argument that is not ours wants no more. */
  lemma BeforeOther(kind: Classifier, args: seq<Arg>, i: nat)
    requires i < |args| && !IsOwn(kind, args, i)
    ensures !WantsMore(kind, args[..i]) && kind(args[i]) == Unknown
  {
    if i > 0 {
      assert args[..i][..i] == args[..i];
      ReadingIsLocal(kind, args[..i], args, i - 1);
    }
  }

  /** A callee that is no flag and no flag's parameter where it stands comes first among the
      others; nothing else is read differently or moves. */
  lemma {:induction false} CalleeStandsApart(kind: Classifier, args: seq<Arg>, callee: Arg)
    requires callee in args && !IsOwn(kind, args, IndexOf(args, callee))
    ensures var i, moved := IndexOf(args, callee), CalleeFirst(args, Some(callee));
      var before, after := Others(kind, args[..i]), Others(kind, args[i + 1..]);
      && Own(kind, moved) == Own(kind, args)
      && Others(kind, args) == before + ([callee] + after) && Others(kind, moved) == [callee] + (before + after)
  {
    var i := IndexOf(args, callee);
    CalleeSplits(args, callee);
    BeforeOther(kind, args, i);
    ReadInTwo(kind, args[..i], [callee] + args[i + 1..]);
    ReadInTwo(kind, args[..i], args[i + 1..]);
    ReadFromFront(kind, callee, args[i + 1..]);
    ReadFromFront(kind, callee, args[..i] + args[i + 1..]);
  }

  lemma {:induction false} ReadingOfLast(kind: Classifier, args: seq<Arg>, a: Arg)
    ensures IsParameter(kind, args + [a], |args|) == WantsMore(kind, args)
    ensures forall j :: 0 <= j < |args| ==> IsOwn(kind, args + [a], j) == IsOwn(kind, args, j)
  {
    var r := args + [a];
    forall j | 0 <= j < |args|
      ensures IsOwn(kind, r, j) == IsOwn(kind, args, j) && IsFlag(kind, r, j) == IsFlag(kind, args, j)
    {
      assert r[..j + 1] == args[..j + 1];
      ReadingIsLocal(kind, r, args, j);
    }
  }

  /** Our own arguments read the same once the others are gone. */
  lemma {:induction false} OwnReadsTheSame(kind: Classifier, args: seq<Arg>, n: nat)
    requires n <= |args|
    ensures var own := Select(kind, args, n, true);
      && (forall j :: 0 <= j < |own| ==> IsOwn(kind, own, j))
      && WantsMore(kind, own) == (n > 0 && IsFlag(kind, args, n - 1) && kind(args[n - 1]) == Valued)
  {
    if n > 0 {
      OwnReadsTheSame(kind, args, n - 1);
      var before, a := Select(kind, args, n - 1, true), args[n - 1];
      if IsOwn(kind, args, n - 1) {
        assert Select(kind, args, n, true) == before + [a];
        ReadingOfLast(kind, before, a);
      } else {
        assert Select(kind, args, n, true) == before;
      }
    }
  }

  lemma {:induction false} OwnSelected(kind: Classifier, own: seq<Arg>, rest: seq<Arg>, n: nat)
    requires n <= |own| && forall j :: 0 <= j < |own| ==> IsOwn(kind, own, j)
    ensures Select(kind, own + rest, n, true) == own[..n] && Select(kind, own + rest, n, false) == []
  {
    if n > 0 {
      OwnSelected(kind, own, rest, n - 1);
      assert own[..n] == (own + rest)[..n];
      ReadingIsLocal(kind, own, own + rest, n - 1);
      assert IsOwn(kind, own, n - 1);
      assert own[..n] == own[..n - 1] + [own[n - 1]];
    }
  }

  lemma RestReading(kind: Classifier, own: seq<Arg>, rest: seq<Arg>, i: nat)
    requires i < |rest| && forall a :: a in rest ==> kind(a) == Unknown
    ensures !IsFlag(kind, own + rest, |own| + i)
    ensures i > 0 ==> !IsOwn(kind, own + rest, |own| + i)
  {
    var r := own + rest;
    assert r[|own| + i] == rest[i] && rest[i] in rest;
    if i > 0 { assert r[|own| + i - 1] == rest[i - 1] && rest[i - 1] in rest; }
  }

  lemma RestStep(kind: Classifier, own: seq<Arg>, rest: seq<Arg>, n: nat)
    requires 0 < n <= |rest| && (forall j :: 0 <= j < |own| ==> IsOwn(kind, own, j))
    requires forall a :: a in rest ==> kind(a) == Unknown
    ensures var k, r := |own| + n - 1, own + rest;
      Select(kind, r, k + 1, true) + Select(kind, r, k + 1, false)
      == Select(kind, r, k, true) + Select(kind, r, k, false) + [rest[n - 1]]
  {
    var k, r := |own| + n - 1, own + rest;
    RestReading(kind, own, rest, n - 1);
    SelectStep(kind, r, k);
    assert r[k] == rest[n - 1];
    ConcatThree(Select(kind, r, k, true), Select(kind, r, k, false), [r[k]]);
    if n == 1 {
      OwnSelected(kind, own, rest, |own|);
      EmptyConcat(Select(kind, r, k, true));
      EmptyConcat(Select(kind, r, k + 1, true));
    }
  }

  lemma {:induction false} RestSelected(kind: Classifier, own: seq<Arg>, rest: seq<Arg>, n: nat)
    requires n <= |rest| && (forall j :: 0 <= j < |own| ==> IsOwn(kind, own, j))
    requires forall a :: a in rest ==> kind(a) == Unknown
    ensures Select(kind, own + rest, |own| + n, true) + Select(kind, own + rest, |own| + n, false) == own + rest[..n]
  {
    if n == 0 {
      OwnSelected(kind, own, rest, |own|);
      WholePrefix(own);
    } else {
      RestSelected(kind, own, rest, n - 1);
      RestStep(kind, own, rest, n);
      PrefixOneMore(rest, n - 1);
      ConcatThree(own, rest[..n - 1], [rest[n - 1]]);
    }
  }

  lemma ReorderedParts(kind: Classifier, args: seq<Arg>)
    requires args != []
    ensures var r := Reordered(kind, args, None);
      r == [args[0]] + (Own(kind, args[1..]) + Others(kind, args[1..]))
      && r != [] && r[0] == args[0] && r[1..] == Own(kind, args[1..]) + Others(kind, args[1..])
  {
    var own, rest := Own(kind, args[1..]), Others(kind, args[1..]);
    ConcatThree([args[0]], own, rest);
    TailOfConcat([args[0]], own + rest);
    EmptyConcat(own + rest);
  }

  /** A list of our own arguments followed by others is sorted. */
  lemma SortedIsFixed(kind: Classifier, own: seq<Arg>, rest: seq<Arg>)
    requires (forall j :: 0 <= j < |own| ==> IsOwn(kind, own, j)) && forall a :: a in rest ==> kind(a) == Unknown
    ensures Own(kind, own + rest) + Others(kind, own + rest) == own + rest
  {
    RestSelected(kind, own, rest, |rest|);
    WholePrefix(rest);
  }

  /** Sorting a sorted list changes nothing, even if the last flag lacks its parameter and
      would now take the first of the others for it. */
  lemma ReorderIdempotent(kind: Classifier, args: seq<Arg>)
    requires args != []
    ensures Reordered(kind, Reordered(kind, args, None), None) == Reordered(kind, args, None)
  {
    OwnReadsTheSame(kind, args[1..], |args| - 1);
    OthersAreUnknown(kind, args[1..], |args| - 1);
    SortedIsFixed(kind, Own(kind, args[1..]), Others(kind, args[1..]));
    ReorderedParts(kind, args);
    ReorderedParts(kind, Reordered(kind, args, None));
  }
}

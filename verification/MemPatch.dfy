/** mempatch.c: find the first occurrence of a byte pattern and overwrite it in place. */
module MemPatch {
  import opened Octets

  const MOVE_OXEN_OLD: seq<Octet> := [0x60, 0x05, 0x48, 0x06, 0x50, 0x00, 0x5b, 0x00]
  const MOVE_OXEN_NEW: seq<Octet> := [0x38, 0x04, 0xb2, 0x07, 0x2a, 0x00, 0x2a, 0x00]

  const RESPAWN_TIME_OLD: seq<Octet> :=
    [0x8b, 0x76, 0xfe, 0x89, 0x44, 0x06, 0xb8, 0x0a, 0x00, 0x8b, 0x76, 0xfe, 0x89, 0x44, 0x1a, 0x8b, 0xe5]
  const RESPAWN_TIME_NEW: seq<Octet> :=
    [0x8b, 0x76, 0xfe, 0x89, 0x44, 0x06, 0xb8, 0x10, 0x00, 0x8b, 0x76, 0xfe, 0x89, 0x44, 0x1a, 0x8b, 0xe5]

  ghost predicate OccursAt(buf: seq<Octet>, pat: seq<Octet>, at: nat) {
    at + |pat| <= |buf| && forall k :: 0 <= k < |pat| ==> buf[at + k] == pat[k]
  }

  ghost predicate Leftmost(buf: seq<Octet>, pat: seq<Octet>, at: nat) {
    OccursAt(buf, pat, at) && forall s :: 0 <= s < at ==> !OccursAt(buf, pat, s)
  }

  function Overwrite(buf: seq<Octet>, at: nat, new_: seq<Octet>): (r: seq<Octet>)
    requires at + |new_| <= |buf|
    ensures |r| == |buf|
  {
    buf[..at] + new_ + buf[at + |new_|..]
  }

  /** The index steps back over a failed match, so the loop's measure is the candidate start
      first and the length matched second. */
  method FindPattern(buf: array<Octet>, bufLen: nat, oldData: seq<Octet>) returns (i: nat)
    requires bufLen <= buf.Length && oldData != []
    ensures i < bufLen ==> Leftmost(buf[..bufLen], oldData, i)
    ensures i >= bufLen ==> forall s :: !OccursAt(buf[..bufLen], oldData, s)
  {
    var matchLen := 0;
    i := 0;
    while i < bufLen
      invariant 0 <= matchLen <= i <= bufLen && matchLen < |oldData|
      invariant forall k :: 0 <= k < matchLen ==> buf[i - matchLen + k] == oldData[k]
      invariant forall s :: 0 <= s < i - matchLen ==> !OccursAt(buf[..bufLen], oldData, s)
      decreases bufLen - (i - matchLen), |oldData| - matchLen
    {
      if buf[i] != oldData[matchLen] {
        assert buf[..bufLen][i - matchLen + matchLen] != oldData[matchLen];
        i := i - matchLen;
        matchLen := 0;
      } else if matchLen + 1 >= |oldData| {
        i := i - matchLen;
        return;
      } else {
        matchLen := matchLen + 1;
      }
      i := i + 1;
    }
  }

  method ApplyPatch(buf: array<Octet>, bufLen: nat, oldData: seq<Octet>, newData: seq<Octet>)
    requires bufLen <= buf.Length && |oldData| == |newData| > 0
    modifies buf
    ensures buf[..bufLen] == Patched(old(buf[..bufLen]), oldData, newData)
    ensures buf[bufLen..] == old(buf[bufLen..])
  {
    var i := FindPattern(buf, bufLen, oldData);
    ghost var was := buf[..bufLen];
    if i >= bufLen { return; }
    LeftmostIsUnique(was, oldData, newData, i);
    ghost var at := i;
    for j := 0 to |newData|
      invariant i == at + j
      invariant forall k :: 0 <= k < j ==> buf[at + k] == newData[k]
      invariant forall k :: 0 <= k < at || at + j <= k < buf.Length ==> buf[k] == old(buf[k])
    {
      buf[i] := newData[j];
      i := i + 1;
    }
    assert buf[..bufLen] == Overwrite(was, at, newData);
  }

  /** The leftmost occurrence, if there is one, overwritten. */
  ghost function Patched(buf: seq<Octet>, oldData: seq<Octet>, newData: seq<Octet>): (r: seq<Octet>)
    requires |oldData| == |newData|
    ensures |r| == |buf|
  {
    if exists at: nat :: Leftmost(buf, oldData, at) then
      var at: nat :| Leftmost(buf, oldData, at);
      Overwrite(buf, at, newData)
    else buf
  }

  lemma OnlyOneLeftmost(buf: seq<Octet>, pat: seq<Octet>, a: nat, b: nat)
    requires Leftmost(buf, pat, a) && Leftmost(buf, pat, b)
    ensures a == b
  {
    assert a < b ==> !OccursAt(buf, pat, a);
    assert b < a ==> !OccursAt(buf, pat, b);
  }

  lemma LeftmostIsUnique(buf: seq<Octet>, oldData: seq<Octet>, newData: seq<Octet>, at: nat)
    requires |oldData| == |newData| && Leftmost(buf, oldData, at)
    ensures Patched(buf, oldData, newData) == Overwrite(buf, at, newData)
  {
    var chosen: nat :| Leftmost(buf, oldData, chosen) && Patched(buf, oldData, newData) == Overwrite(buf, chosen, newData);
    OnlyOneLeftmost(buf, oldData, at, chosen);
  }

  lemma {:induction false} LeftmostExists(buf: seq<Octet>, pat: seq<Octet>, s: nat) returns (at: nat)
    requires OccursAt(buf, pat, s)
    ensures Leftmost(buf, pat, at) && at <= s
  {
    at := s;
    if t: nat :| t < s && OccursAt(buf, pat, t) {
      at := LeftmostExists(buf, pat, t);
    }
  }

  // ------------------------------------------------------------------------------------
  // What patching does to the occurrences of the old pattern.

  /** The end of `a` from d on is not how `b` begins. */
  ghost predicate EndDiffers(a: seq<Octet>, b: seq<Octet>, d: nat) {
    && |a| == |b|
    && exists k :: 0 <= k < |a| - d && a[d + k] != b[k]
  }

  /** No proper end of `a` is a beginning of `b`. */
  ghost predicate NoOverlap(a: seq<Octet>, b: seq<Octet>) {
    && |a| == |b|
    && forall d :: 0 < d < |a| ==> EndDiffers(a, b, d)
  }

  /** What keeps a patch from making or hiding other occurrences. */
  ghost predicate CleanPatch(oldData: seq<Octet>, newData: seq<Octet>) {
    && |oldData| == |newData| > 0 && oldData != newData
    && NoOverlap(oldData, oldData) && NoOverlap(newData, oldData) && NoOverlap(oldData, newData)
  }

  lemma Clash(buf: seq<Octet>, a: seq<Octet>, b: seq<Octet>, p: nat, q: nat)
    requires |a| == |b| && NoOverlap(a, b) && p < q < p + |a|
    ensures OccursAt(buf, a, p) ==> !OccursAt(buf, b, q)
  {
    var d := q - p;
    assert EndDiffers(a, b, d);
    var k :| 0 <= k < |a| - d && a[d + k] != b[k];
    if OccursAt(buf, a, p) && q + |b| <= |buf| {
      assert buf[p + (d + k)] == a[d + k];
      assert buf[q + k] != b[k];
    }
  }

  lemma OccursIsSlice(buf: seq<Octet>, pat: seq<Octet>, at: nat)
    ensures OccursAt(buf, pat, at) <==> at + |pat| <= |buf| && buf[at..at + |pat|] == pat
  {
    if at + |pat| <= |buf| && buf[at..at + |pat|] == pat {
      forall k | 0 <= k < |pat| ensures buf[at + k] == pat[k] {
        assert buf[at..at + |pat|][k] == buf[at + k];
      }
    }
  }

  lemma FarAway(buf: seq<Octet>, pat: seq<Octet>, newData: seq<Octet>, at: nat, s: nat)
    requires at + |newData| <= |buf| && (s + |pat| <= at || at + |newData| <= s)
    ensures OccursAt(Overwrite(buf, at, newData), pat, s) <==> OccursAt(buf, pat, s)
  {
    var r := Overwrite(buf, at, newData);
    assert s + |pat| <= |buf| ==> r[s..s + |pat|] == buf[s..s + |pat|];
    OccursIsSlice(r, pat, s);
    OccursIsSlice(buf, pat, s);
  }

  lemma DifferSomewhere(a: seq<Octet>, b: seq<Octet>) returns (k: nat)
    requires |a| == |b| && a != b
    ensures k < |a| && a[k] != b[k]
  {
    k :| k < |a| && a[k] != b[k];
  }

  lemma NewOccurs(buf: seq<Octet>, newData: seq<Octet>, at: nat)
    requires at + |newData| <= |buf|
    ensures OccursAt(Overwrite(buf, at, newData), newData, at)
  {
  }

  /** A clean patch removes exactly the occurrence it hits: it makes no new one anywhere
      and leaves every other one where it was. */
  lemma RemovesExactly(buf: seq<Octet>, oldData: seq<Octet>, newData: seq<Octet>, at: nat, s: nat)
    requires CleanPatch(oldData, newData) && OccursAt(buf, oldData, at)
    ensures OccursAt(Overwrite(buf, at, newData), oldData, s) <==> OccursAt(buf, oldData, s) && s != at
  {
    var r := Overwrite(buf, at, newData);
    NewOccurs(buf, newData, at);
    if s + |oldData| <= at || at + |newData| <= s {
      FarAway(buf, oldData, newData, at, s);
    } else if s == at {
      var k := DifferSomewhere(oldData, newData);
      assert r[s + k] == newData[k];
    } else if at < s {
      Clash(r, newData, oldData, at, s);
      Clash(buf, oldData, oldData, at, s);
    } else {
      Clash(r, oldData, newData, s, at);
      Clash(buf, oldData, oldData, s, at);
    }
  }

  ghost function Occurrences(buf: seq<Octet>, pat: seq<Octet>): set<nat> {
    set s: nat | s < |buf| && OccursAt(buf, pat, s)
  }

  lemma NoneToPatch(buf: seq<Octet>, oldData: seq<Octet>, newData: seq<Octet>)
    requires CleanPatch(oldData, newData) && Occurrences(buf, oldData) == {}
    ensures Patched(buf, oldData, newData) == buf
  {
    forall at: nat ensures !Leftmost(buf, oldData, at) {
      assert OccursAt(buf, oldData, at) ==> at in Occurrences(buf, oldData);
    }
  }

  lemma LeftmostIsTaken(buf: seq<Octet>, oldData: seq<Octet>, newData: seq<Octet>, at: nat)
    requires CleanPatch(oldData, newData) && Leftmost(buf, oldData, at)
    ensures var before := Occurrences(buf, oldData);
      && at in before && (forall s :: s in before ==> at <= s)
      && Occurrences(Patched(buf, oldData, newData), oldData) == before - {at}
  {
    LeftmostIsUnique(buf, oldData, newData, at);
    forall s: nat
      ensures s in Occurrences(Patched(buf, oldData, newData), oldData) <==> s in Occurrences(buf, oldData) - {at}
    {
      RemovesExactly(buf, oldData, newData, at, s);
    }
  }

  /** Applying a clean patch removes the least occurrence and no other, so the count falls
      by one if there is any and the buffer is untouched if there is none. */
  lemma PatchTakesLeast(buf: seq<Octet>, oldData: seq<Octet>, newData: seq<Octet>)
    requires CleanPatch(oldData, newData)
    ensures var before, r := Occurrences(buf, oldData), Patched(buf, oldData, newData);
      if before == {} then r == buf
      else exists at :: at in before && (forall s :: s in before ==> at <= s)
             && Occurrences(r, oldData) == before - {at} && |Occurrences(r, oldData)| == |before| - 1
  {
    var before := Occurrences(buf, oldData);
    if before == {} {
      NoneToPatch(buf, oldData, newData);
    } else {
      var some :| some in before;
      var at := LeftmostExists(buf, oldData, some);
      LeftmostIsTaken(buf, oldData, newData, at);
    }
  }

  function OneLess(n: nat): nat { if n == 0 then 0 else n - 1 }

  /** A second application changes nothing exactly when the pattern occurs at most once. */
  lemma PatchAgain(buf: seq<Octet>, oldData: seq<Octet>, newData: seq<Octet>)
    requires CleanPatch(oldData, newData)
    ensures var r := Patched(buf, oldData, newData);
      && |Occurrences(r, oldData)| == OneLess(|Occurrences(buf, oldData)|)
      && (Patched(r, oldData, newData) == r <==> |Occurrences(buf, oldData)| <= 1)
  {
    PatchTakesLeast(buf, oldData, newData);
    PatchTakesLeast(Patched(buf, oldData, newData), oldData, newData);
  }

  // ------------------------------------------------------------------------------------
  // The two patches of the repository.

  lemma MoveOxenIsClean()
    ensures CleanPatch(MOVE_OXEN_OLD, MOVE_OXEN_NEW)
  {
    var o, n := MOVE_OXEN_OLD, MOVE_OXEN_NEW;
    forall d | 0 < d < 8
      ensures EndDiffers(o, o, d) && EndDiffers(n, o, d) && EndDiffers(o, n, d)
    {
      assert o[d + 0] != o[0] && n[d + 0] != o[0] && o[d + 0] != n[0];
    }
    assert o[0] != n[0];
  }

  lemma RespawnTimeIsClean()
    ensures CleanPatch(RESPAWN_TIME_OLD, RESPAWN_TIME_NEW)
  {
    var o, n := RESPAWN_TIME_OLD, RESPAWN_TIME_NEW;
    forall d | 0 < d < 17
      ensures EndDiffers(o, o, d) && EndDiffers(n, o, d) && EndDiffers(o, n, d)
    {
      var k := if d == 9 then 5 else if d == 15 then 1 else 0;
      assert o[d + k] != o[k] && n[d + k] != o[k] && o[d + k] != n[k];
    }
    assert o[7] != n[7];
  }

  /** The little-endian 16-bit number at `at`. */
  function Number16(bytes: seq<Octet>, at: nat): nat
    requires at + 1 < |bytes|
  {
    var low: nat, high: nat := bytes[at], bytes[at + 1];
    low + 0x100 * high
  }

  /** The oxen's two x coordinates and then their two y coordinates, before and after. */
  lemma OxenMove()
    ensures |MOVE_OXEN_OLD| == |MOVE_OXEN_NEW| == 8
    ensures Number16(MOVE_OXEN_OLD, 0) == 1376 && Number16(MOVE_OXEN_OLD, 2) == 1608
    ensures Number16(MOVE_OXEN_OLD, 4) == 80 && Number16(MOVE_OXEN_OLD, 6) == 91
    ensures Number16(MOVE_OXEN_NEW, 0) == 1080 && Number16(MOVE_OXEN_NEW, 2) == 1970
    ensures Number16(MOVE_OXEN_NEW, 4) == 42 && Number16(MOVE_OXEN_NEW, 6) == 42
  {
  }

  /** Of the respawn code one byte changes, the number of tics to wait, from 10 to 16. */
  lemma OneByteOfRespawn(k: nat)
    requires k < |RESPAWN_TIME_OLD|
    ensures |RESPAWN_TIME_OLD| == |RESPAWN_TIME_NEW| == 17
    ensures RESPAWN_TIME_NEW[k] == if k == 7 then 16 else RESPAWN_TIME_OLD[k]
    ensures RESPAWN_TIME_OLD[7] == 10
  {
  }

  /** Byte for byte: the leftmost occurrence becomes the new data, all else stays. */
  lemma PatchedBytes(buf: seq<Octet>, oldData: seq<Octet>, newData: seq<Octet>, k: nat)
    requires |oldData| == |newData| && k < |buf|
    ensures (forall at: nat :: !OccursAt(buf, oldData, at)) ==> Patched(buf, oldData, newData) == buf
    ensures forall at: nat :: Leftmost(buf, oldData, at) ==>
      Patched(buf, oldData, newData)[k] == if at <= k < at + |newData| then newData[k - at] else buf[k]
  {
    forall at: nat | Leftmost(buf, oldData, at)
      ensures Patched(buf, oldData, newData)[k] == if at <= k < at + |newData| then newData[k - at] else buf[k]
    {
      LeftmostIsUnique(buf, oldData, newData, at);
    }
  }

  /** The first byte of each pattern is nowhere in the other. */
  ghost predicate Unrelated(a: seq<Octet>, b: seq<Octet>) {
    |a| > 0 && |b| > 0 && a[0] !in b && b[0] !in a
  }

  lemma BeginsInside(buf: seq<Octet>, a: seq<Octet>, b: seq<Octet>, p: nat, q: nat)
    requires |b| > 0 && b[0] !in a && OccursAt(buf, a, p) && p <= q < p + |a|
    ensures !OccursAt(buf, b, q)
  {
    assert buf[p + (q - p)] == a[q - p];
    assert a[q - p] in a;
    assert buf[q + 0] != b[0];
  }

  lemma Straddles(buf: seq<Octet>, a: seq<Octet>, b: seq<Octet>, p: nat, q: nat)
    requires |a| > 0 && a[0] !in b && OccursAt(buf, a, p) && q <= p < q + |b|
    ensures !OccursAt(buf, b, q)
  {
    assert buf[p + 0] == a[0];
    assert b[p - q] in b;
    assert q + |b| <= |buf| ==> buf[q + (p - q)] != b[p - q];
  }

  /** A patch leaves alone the occurrences of a pattern unrelated to it. */
  lemma OthersUntouched(buf: seq<Octet>, oldData: seq<Octet>, newData: seq<Octet>, other: seq<Octet>)
    requires |oldData| == |newData| && Unrelated(oldData, other) && Unrelated(newData, other)
    ensures Occurrences(Patched(buf, oldData, newData), other) == Occurrences(buf, other)
  {
    if at: nat :| Leftmost(buf, oldData, at) {
      LeftmostIsUnique(buf, oldData, newData, at);
      var r := Overwrite(buf, at, newData);
      NewOccurs(buf, newData, at);
      forall s: nat ensures OccursAt(r, other, s) <==> OccursAt(buf, other, s) {
        if s + |other| <= at || at + |newData| <= s {
          FarAway(buf, other, newData, at, s);
        } else if at <= s {
          BeginsInside(r, newData, other, at, s);
          BeginsInside(buf, oldData, other, at, s);
        } else {
          Straddles(r, newData, other, at, s);
          Straddles(buf, oldData, other, at, s);
        }
      }
    }
  }

  /** ApplyPatches, over one segment. */
  ghost function PatchedTwice(buf: seq<Octet>, numPlayers: int): seq<Octet> {
    var b := if numPlayers > 2 then Patched(buf, MOVE_OXEN_OLD, MOVE_OXEN_NEW) else buf;
    Patched(b, RESPAWN_TIME_OLD, RESPAWN_TIME_NEW)
  }

  method ApplyPatches(segment: array<Octet>, noMemPatch: bool, numPlayers: int)
    requires segment.Length >= 0xffff
    modifies segment
    ensures noMemPatch ==> segment[..] == old(segment[..])
    ensures !noMemPatch ==> segment[..0xffff] == PatchedTwice(old(segment[..0xffff]), numPlayers)
    ensures segment[0xffff..] == old(segment[0xffff..])
  {
    if noMemPatch { return; }
    if numPlayers > 2 {
      ApplyPatch(segment, 0xffff, MOVE_OXEN_OLD, MOVE_OXEN_NEW);
    }
    ApplyPatch(segment, 0xffff, RESPAWN_TIME_OLD, RESPAWN_TIME_NEW);
  }

  lemma PatternsUnrelated()
    ensures Unrelated(MOVE_OXEN_OLD, RESPAWN_TIME_OLD) && Unrelated(MOVE_OXEN_NEW, RESPAWN_TIME_OLD)
    ensures Unrelated(RESPAWN_TIME_NEW, MOVE_OXEN_OLD)
  {
  }

  /** The two patches do not get in each other's way: one ApplyPatches takes one occurrence of
      each pattern it looks for, if there is any. */
  lemma PatchesTakeOneEach(buf: seq<Octet>, numPlayers: int)
    ensures var r := PatchedTwice(buf, numPlayers);
      && |Occurrences(r, RESPAWN_TIME_OLD)| == OneLess(|Occurrences(buf, RESPAWN_TIME_OLD)|)
      && (if numPlayers > 2 then |Occurrences(r, MOVE_OXEN_OLD)| == OneLess(|Occurrences(buf, MOVE_OXEN_OLD)|)
          else Occurrences(r, MOVE_OXEN_OLD) == Occurrences(buf, MOVE_OXEN_OLD))
  {
    MoveOxenIsClean();
    RespawnTimeIsClean();
    PatternsUnrelated();
    var b := if numPlayers > 2 then Patched(buf, MOVE_OXEN_OLD, MOVE_OXEN_NEW) else buf;
    if numPlayers > 2 {
      PatchAgain(buf, MOVE_OXEN_OLD, MOVE_OXEN_NEW);
      OthersUntouched(buf, MOVE_OXEN_OLD, MOVE_OXEN_NEW, RESPAWN_TIME_OLD);
    }
    PatchAgain(b, RESPAWN_TIME_OLD, RESPAWN_TIME_NEW);
    OthersUntouched(b, RESPAWN_TIME_OLD, RESPAWN_TIME_NEW, MOVE_OXEN_OLD);
  }

  lemma NothingToPatch(buf: seq<Octet>, numPlayers: int)
    requires |Occurrences(buf, RESPAWN_TIME_OLD)| == 0
    requires numPlayers > 2 ==> |Occurrences(buf, MOVE_OXEN_OLD)| == 0
    ensures PatchedTwice(buf, numPlayers) == buf
  {
    MoveOxenIsClean();
    RespawnTimeIsClean();
    PatchTakesLeast(buf, MOVE_OXEN_OLD, MOVE_OXEN_NEW);
    PatchTakesLeast(buf, RESPAWN_TIME_OLD, RESPAWN_TIME_NEW);
  }

  /** A second ApplyPatches changes nothing exactly when no pattern that is looked for occurs
      twice. */
  lemma PatchingIsIdempotent(buf: seq<Octet>, numPlayers: int)
    ensures var r := PatchedTwice(buf, numPlayers);
      PatchedTwice(r, numPlayers) == r
      <==> |Occurrences(buf, RESPAWN_TIME_OLD)| <= 1 && (numPlayers > 2 ==> |Occurrences(buf, MOVE_OXEN_OLD)| <= 1)
  {
    var r := PatchedTwice(buf, numPlayers);
    PatchesTakeOneEach(buf, numPlayers);
    PatchesTakeOneEach(r, numPlayers);
    if |Occurrences(r, RESPAWN_TIME_OLD)| == 0 && (numPlayers > 2 ==> |Occurrences(r, MOVE_OXEN_OLD)| == 0) {
      NothingToPatch(r, numPlayers);
    }
  }
}

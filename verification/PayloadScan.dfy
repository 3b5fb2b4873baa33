/** Streaming multi-needle search: the file arrives in chunks, and the tail of
    each window is carried over so that no occurrence is cut in two. */
module PayloadScan {
  import opened Values

  type Needle = (string, bytes)

  predicate MatchAt(s: bytes, needle: bytes, i: int) {
    0 <= i <= |s| && needle <= s[i..]
  }

  /** The number of (possibly overlapping) occurrences. */
  function Occ(s: bytes, needle: bytes): nat {
    if |s| < |needle| then 0
    else (if needle <= s then 1 else 0) + if s == [] then 0 else Occ(s[1..], needle)
  }

  /** Zero means: occurs nowhere. */
  lemma {:induction false} OccZero(s: bytes, needle: bytes)
    ensures Occ(s, needle) == 0 <==> forall i :: !MatchAt(s, needle, i)
  {
    assert s[0..] == s;
    if |s| >= |needle| && s != [] {
      OccZero(s[1..], needle);
      assert MatchAt(s, needle, 0) <==> needle <= s;
      forall i | i >= 0 ensures MatchAt(s, needle, i + 1) <==> MatchAt(s[1..], needle, i) {
        if i + 1 <= |s| { assert s[1..][i..] == s[i + 1..]; }
      }
      if i :| MatchAt(s, needle, i) {
        assert i > 0 ==> MatchAt(s[1..], needle, i - 1);
      }
    } else if needle == [] {
      assert MatchAt(s, needle, 0);
    }
  }

  // ---------------------------------------------------------------- counting in one window

  /** Occurrences at or after `cursor`. */
  function OccFrom(s: bytes, needle: bytes, cursor: nat): nat {
    if cursor > |s| then 0 else Occ(s[cursor..], needle)
  }

  lemma OccStep(s: bytes, needle: bytes, c: nat)
    requires c <= |s|
    ensures OccFrom(s, needle, c) == (if MatchAt(s, needle, c) then 1 else 0) + OccFrom(s, needle, c + 1)
  {
    var t := s[c..];
    if c < |s| { assert s[c + 1..] == t[1..]; }
  }

  /** `bytes.find`: the first match at or after the cursor, or -1. */
  /** The positions, from `c` on, at which the needle occurs. */
  function Places(s: bytes, needle: bytes, c: nat): set<int> {
    set i | c <= i <= |s| && MatchAt(s, needle, i)
  }

  lemma {:induction false} CountPlaces(s: bytes, needle: bytes, c: nat)
    ensures OccFrom(s, needle, c) == |Places(s, needle, c)|
    decreases |s| - c
  {
    if c <= |s| {
      CountPlaces(s, needle, c + 1);
      OccStep(s, needle, c);
      hide OccFrom;
      var rest := Places(s, needle, c + 1);
      assert Places(s, needle, c) == if MatchAt(s, needle, c) then rest + {c} else rest;
    } else {
      assert Places(s, needle, c) == {};
    }
  }

  /** The number of occurrences is the number of positions that match. */
  lemma OccCounts(s: bytes, needle: bytes)
    ensures Occ(s, needle) == |Places(s, needle, 0)|
  {
    hide Occ;
    CountPlaces(s, needle, 0);
    assert s[0..] == s;
  }

  method Find(s: bytes, needle: bytes, cursor: nat) returns (found: int)
    ensures found >= 0 ==> cursor <= found <= |s| && MatchAt(s, needle, found) && OccFrom(s, needle, cursor) == OccFrom(s, needle, found)
    ensures found < 0 ==> OccFrom(s, needle, cursor) == 0
  {
    hide Occ;
    var i := cursor;
    while i <= |s|
      invariant cursor <= i && OccFrom(s, needle, i) == OccFrom(s, needle, cursor)
      decreases |s| - i
    {
      OccStep(s, needle, i);
      if needle <= s[i..] { return i; }
      i := i + 1;
    }
    return -1;
  }

  method CountWindow(window: bytes, needle: bytes) returns (count: nat)
    ensures count == Occ(window, needle)
  {
    hide Occ;
    count := 0;
    var cursor: nat := 0;
    assert window[0..] == window;
    while true
      invariant cursor <= |window| + 1 && count + OccFrom(window, needle, cursor) == Occ(window, needle)
      decreases |window| + 1 - cursor
    {
      var found := Find(window, needle, cursor);
      if found < 0 { break; }
      OccStep(window, needle, found);
      count, cursor := count + 1, found + 1;
    }
  }

  // ---------------------------------------------------------------- the scan

  function File(chunks: seq<bytes>): bytes {
    if chunks == [] then [] else File(chunks[..|chunks| - 1]) + chunks[|chunks| - 1]
  }

  function MaxLen(needles: seq<Needle>): nat
    requires needles != []
  {
    var n := |needles[|needles| - 1].1|;
    if |needles| == 1 then n
    else var m := MaxLen(needles[..|needles| - 1]); if m < n then n else m
  }

  /** `window[-overlap:] if overlap else b""`. */
  function Tail(window: bytes, overlap: int): bytes {
    if overlap == 0 then []
    else if overlap > 0 then (if |window| <= overlap then window else window[|window| - overlap..])
    else if |window| <= -overlap then [] else window[-overlap..]
  }

  /** What is carried over after the given chunks. */
  function Carry(chunks: seq<bytes>, overlap: int): bytes {
    if chunks == [] then []
    else Tail(Carry(chunks[..|chunks| - 1], overlap) + chunks[|chunks| - 1], overlap)
  }

  /** How often one needle is counted over all windows. */
  function Hits(needle: bytes, chunks: seq<bytes>, overlap: int): nat {
    if chunks == [] then 0
    else var front := chunks[..|chunks| - 1];
         Hits(needle, front, overlap) + Occ(Carry(front, overlap) + chunks[|chunks| - 1], needle)
  }

  /** The count kept under one name, over all needles of that name. */
  function Total(name: string, needles: seq<Needle>, chunks: seq<bytes>, overlap: int): nat {
    if needles == [] then 0
    else Total(name, needles[..|needles| - 1], chunks, overlap)
         + if needles[|needles| - 1].0 == name then Hits(needles[|needles| - 1].1, chunks, overlap) else 0
  }

  /** The same for one window. */
  function InWindow(name: string, needles: seq<Needle>, window: bytes): nat {
    if needles == [] then 0
    else InWindow(name, needles[..|needles| - 1], window)
         + if needles[|needles| - 1].0 == name then Occ(window, needles[|needles| - 1].1) else 0
  }

  lemma {:induction false} TotalSnoc(name: string, needles: seq<Needle>, chunks: seq<bytes>, chunk: bytes, overlap: int)
    ensures Total(name, needles, chunks + [chunk], overlap)
            == Total(name, needles, chunks, overlap) + InWindow(name, needles, Carry(chunks, overlap) + chunk)
  {
    assert (chunks + [chunk])[..|chunks|] == chunks;
    if needles != [] { TotalSnoc(name, needles[..|needles| - 1], chunks, chunk, overlap); }
  }

  lemma {:induction false} TotalStart(name: string, needles: seq<Needle>, overlap: int)
    ensures Total(name, needles, [], overlap) == 0
  {
    if needles != [] { TotalStart(name, needles[..|needles| - 1], overlap); }
  }

  function Names(needles: seq<Needle>): set<string> { set n | n in needles :: n.0 }

  /** The digest of the file and the count of each needle name; None is the
      error raised for an empty list of needles. */
  method ScanFile(chunks: seq<bytes>, needles: seq<Needle>, sha256: bytes -> string) returns (r: Option<(string, map<string, nat>)>)
    ensures r == None <==> needles == []
    ensures r.Some? ==>
              && r.value.0 == sha256(File(chunks)) && r.value.1.Keys == Names(needles)
              && forall name :: name in r.value.1 ==> r.value.1[name] == Total(name, needles, chunks, MaxLen(needles) - 1)
  {
    hide Occ, Total, Carry, InWindow, MaxLen, Tail;
    if needles == [] { return None; }
    var counts: map<string, nat> := map name | name in Names(needles) :: 0;
    var overlap := MaxLen(needles) - 1;
    var previous, fed: bytes := [], [];
    forall name ensures Total(name, needles, [], overlap) == 0 { TotalStart(name, needles, overlap); }
    assert chunks[..0] == [];
    CarryStart(overlap);
    for k := 0 to |chunks|
      invariant counts.Keys == Names(needles) && previous == Carry(chunks[..k], overlap) && fed == File(chunks[..k])
      invariant forall name :: name in counts ==> counts[name] == Total(name, needles, chunks[..k], overlap)
    {
      var chunk := chunks[k];
      assert chunks[..k + 1] == chunks[..k] + [chunk] && chunks[..k + 1][..k] == chunks[..k];
      fed := fed + chunk;
      var window := previous + chunk;
      counts := CountAll(counts, needles, window);
      forall name | name in counts ensures counts[name] == Total(name, needles, chunks[..k + 1], overlap) {
        TotalSnoc(name, needles, chunks[..k], chunk, overlap);
      }
      CarrySnoc(chunks[..k], chunk, overlap);
      previous := Tail(window, overlap);
    }
    assert chunks[..|chunks|] == chunks;
    return Some((sha256(fed), counts));
  }

  lemma CarryStart(overlap: int)
    ensures Carry([], overlap) == []
  {
  }

  lemma CarrySnoc(chunks: seq<bytes>, chunk: bytes, overlap: int)
    ensures Carry(chunks + [chunk], overlap) == Tail(Carry(chunks, overlap) + chunk, overlap)
  {
    assert (chunks + [chunk])[..|chunks|] == chunks;
  }

  method CountAll(before: map<string, nat>, needles: seq<Needle>, window: bytes) returns (counts: map<string, nat>)
    requires before.Keys == Names(needles)
    ensures counts.Keys == before.Keys
    ensures forall name :: name in counts ==> counts[name] == before[name] + InWindow(name, needles, window)
  {
    hide Occ;
    counts := before;
    for j := 0 to |needles|
      invariant counts.Keys == before.Keys
      invariant forall name :: name in counts ==> counts[name] == before[name] + InWindow(name, needles[..j], window)
    {
      var (name, needle) := needles[j];
      assert needles[j] in needles && needles[..j + 1][..j] == needles[..j];
      var found := CountWindow(window, needle);
      counts := counts[name := counts[name] + found];
    }
    assert needles[..|needles|] == needles;
  }

  // ---------------------------------------------------------------- what the counts mean

  lemma {:induction false} MaxLenBounds(needles: seq<Needle>, j: int)
    requires 0 <= j < |needles|
    ensures |needles[j].1| <= MaxLen(needles)
  {
    if j < |needles| - 1 { MaxLenBounds(needles[..|needles| - 1], j); }
  }

  lemma {:induction false} MaxLenAttained(needles: seq<Needle>) returns (j: int)
    requires needles != []
    ensures 0 <= j < |needles| && |needles[j].1| == MaxLen(needles)
  {
    j := |needles| - 1;
    if |needles| > 1 && |needles[j].1| < MaxLen(needles) { j := MaxLenAttained(needles[..|needles| - 1]); }
  }

  /** No needle is longer. */
  predicate Longest(needles: seq<Needle>, j: int)
    requires 0 <= j < |needles|
  {
    forall i :: 0 <= i < |needles| ==> |needles[i].1| <= |needles[j].1|
  }

  lemma LongestIsMax(needles: seq<Needle>, j: int)
    requires 0 <= j < |needles|
    ensures Longest(needles, j) ==> |needles[j].1| == MaxLen(needles)
  {
    hide MaxLen;
    MaxLenBounds(needles, j);
    var m := MaxLenAttained(needles);
  }

  /** Extending a text to the right adds as many occurrences as extending any
      long enough suffix of it. */
  lemma {:induction false} OccLocal(a: bytes, b: bytes, c: bytes, needle: bytes)
    requires needle != [] && (a == [] || |b| >= |needle| - 1)
    ensures Occ(a + b + c, needle) + Occ(b, needle) == Occ(a + b, needle) + Occ(b + c, needle)
  {
    if a == [] {
      assert a + b + c == b + c && a + b == b;
    } else {
      OccLocal(a[1..], b, c, needle);
      assert (a + b + c)[1..] == a[1..] + b + c && (a + b)[1..] == a[1..] + b;
      assert (a + b + c)[..|needle|] == (a + b)[..|needle|];
    }
  }

  lemma {:induction false} OccSuffix(a: bytes, b: bytes, needle: bytes)
    ensures Occ(b, needle) <= Occ(a + b, needle)
  {
    if a == [] {
      assert a + b == b;
    } else {
      assert (a + b)[1..] == a[1..] + b;
      OccSuffix(a[1..], b, needle);
    }
  }

  lemma {:induction false} OccPrefix(a: bytes, b: bytes, needle: bytes)
    ensures Occ(a, needle) <= Occ(a + b, needle)
  {
    if |a| >= |needle| {
      assert (a + b)[..|needle|] == a[..|needle|];
      if a != [] {
        assert (a + b)[1..] == a[1..] + b;
        OccPrefix(a[1..], b, needle);
      }
    }
  }

  /** The carried bytes are the tail of the file so far. */
  lemma {:induction false} CarryIsTail(chunks: seq<bytes>, overlap: nat)
    ensures Carry(chunks, overlap) == Tail(File(chunks), overlap)
  {
    hide Tail;
    if chunks == [] {
      TailBounds([], overlap);
    } else {
      CarryIsTail(chunks[..|chunks| - 1], overlap);
      TailTwice(File(chunks[..|chunks| - 1]), chunks[|chunks| - 1], overlap);
    }
  }

  lemma TailBounds(f: bytes, overlap: nat)
    ensures var b := Tail(f, overlap);
            |b| <= |f| && f == f[..|f| - |b|] + b && |b| <= overlap && (|b| == overlap || b == f)
  {
  }

  lemma TailTwice(f: bytes, chunk: bytes, overlap: nat)
    ensures Tail(Tail(f, overlap) + chunk, overlap) == Tail(f + chunk, overlap)
  {
    var b := Tail(f, overlap);
    if overlap > 0 && |f| > overlap {
      assert f + chunk == f[..|f| - overlap] + (b + chunk);
    }
  }

  /** Occurrences inside the carried bytes are counted again. */
  function Recount(needle: bytes, chunks: seq<bytes>, overlap: int): nat {
    if chunks == [] then 0
    else var front := chunks[..|chunks| - 1];
         Recount(needle, front, overlap) + Occ(Carry(front, overlap), needle)
  }

  /** The exact count: every true occurrence once, plus the recounted ones. */
  lemma {:induction false} HitsExact(needle: bytes, chunks: seq<bytes>, overlap: nat)
    requires needle != [] && |needle| - 1 <= overlap
    ensures Hits(needle, chunks, overlap) == Occ(File(chunks), needle) + Recount(needle, chunks, overlap)
  {
    hide Occ, Tail;
    if chunks == [] {
      NoRoom([], needle);
    } else {
      var front, chunk := chunks[..|chunks| - 1], chunks[|chunks| - 1];
      HitsExact(needle, front, overlap);
      CarryIsTail(front, overlap);
      var f := File(front);
      TailBounds(f, overlap);
      OccLocal(f[..|f| - |Carry(front, overlap)|], Carry(front, overlap), chunk, needle);
    }
  }

  lemma NoRoom(s: bytes, needle: bytes)
    requires |s| < |needle|
    ensures Occ(s, needle) == 0
  {
  }

  lemma {:induction false} RecountBounds(needle: bytes, chunks: seq<bytes>, overlap: nat)
    ensures Occ(File(chunks), needle) == 0 ==> Recount(needle, chunks, overlap) == 0
    ensures |needle| == overlap + 1 ==> Recount(needle, chunks, overlap) == 0
  {
    hide Occ, Tail;
    if chunks != [] {
      var front, chunk := chunks[..|chunks| - 1], chunks[|chunks| - 1];
      RecountBounds(needle, front, overlap);
      CarryIsTail(front, overlap);
      var f, b := File(front), Carry(front, overlap);
      TailBounds(f, overlap);
      OccSuffix(f[..|f| - |b|], b, needle);
      OccPrefix(File(front), chunk, needle);
      if |needle| == overlap + 1 { NoRoom(b, needle); }
    }
  }

  /** For any split of the file into chunks: a needle's count is zero exactly
      when it does not occur in the file, it is never below the true number of
      occurrences, and the longest needle's count is exact. */
  lemma HitsSound(needle: bytes, chunks: seq<bytes>, overlap: nat)
    requires needle != [] && |needle| - 1 <= overlap
    ensures Hits(needle, chunks, overlap) == 0 <==> forall i :: !MatchAt(File(chunks), needle, i)
    ensures Hits(needle, chunks, overlap) >= Occ(File(chunks), needle)
    ensures |needle| == overlap + 1 ==> Hits(needle, chunks, overlap) == Occ(File(chunks), needle)
  {
    hide Occ, Hits, Recount;
    HitsExact(needle, chunks, overlap);
    RecountBounds(needle, chunks, overlap);
    OccZero(File(chunks), needle);
  }

  ghost predicate DistinctNames(needles: seq<Needle>) {
    forall i, j :: 0 <= i < j < |needles| ==> needles[i].0 != needles[j].0
  }

  lemma {:induction false} TotalOfOne(needles: seq<Needle>, j: int, chunks: seq<bytes>, overlap: int)
    requires DistinctNames(needles) && 0 <= j < |needles|
    ensures Total(needles[j].0, needles, chunks, overlap) == Hits(needles[j].1, chunks, overlap)
  {
    var n := |needles| - 1;
    var front := needles[..n];
    assert forall i :: 0 <= i < n ==> front[i] == needles[i];
    if j < n {
      TotalOfOne(front, j, chunks, overlap);
    } else {
      TotalOfNone(front, needles[n].0, chunks, overlap);
    }
  }

  lemma {:induction false} TotalOfNone(needles: seq<Needle>, name: string, chunks: seq<bytes>, overlap: int)
    requires forall i :: 0 <= i < |needles| ==> needles[i].0 != name
    ensures Total(name, needles, chunks, overlap) == 0
  {
    if needles != [] { TotalOfNone(needles[..|needles| - 1], name, chunks, overlap); }
  }

  /** The count reported under the name of needle `j`. */
  lemma ReportedCount(needles: seq<Needle>, j: int, chunks: seq<bytes>)
    requires DistinctNames(needles) && 0 <= j < |needles| && needles[j].1 != []
    ensures var total, file := Total(needles[j].0, needles, chunks, MaxLen(needles) - 1), File(chunks);
            && (total == 0 <==> forall i :: !MatchAt(file, needles[j].1, i))
            && total >= Occ(file, needles[j].1)
            && (Longest(needles, j) ==> total == Occ(file, needles[j].1))
  {
    hide Occ, Hits, Total, MaxLen, Longest;
    MaxLenBounds(needles, j);
    LongestIsMax(needles, j);
    TotalOfOne(needles, j, chunks, MaxLen(needles) - 1);
    HitsSound(needles[j].1, chunks, MaxLen(needles) - 1);
  }
}

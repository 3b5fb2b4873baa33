/** The `key=value;key=value` line protocol, spoken by the Rust core and by the
    Python monitor. */
module KvCodec {
  import opened Values

  datatype Side = Rust | Python

  datatype Entry = Entry(key: string, value: string)

  /** Unicode white space, as `str::trim_end` sees it; Python's `str.strip`
      also removes the four ASCII separators. */
  predicate White(side: Side, ch: char) {
    var n := ch as int;
    || 9 <= n <= 13 || n == 32 || n == 0x85 || n == 0xA0 || n == 0x1680 || 0x2000 <= n <= 0x200A
    || n == 0x2028 || n == 0x2029 || n == 0x202F || n == 0x205F || n == 0x3000
    || (side == Python && 28 <= n <= 31)
  }

  function TrimEnd(side: Side, s: string): string {
    if s != [] && White(side, s[|s| - 1]) then TrimEnd(side, s[..|s| - 1]) else s
  }

  function TrimStart(side: Side, s: string): string {
    if s != [] && White(side, s[0]) then TrimStart(side, s[1..]) else s
  }

  /** Rust trims the end of a line, Python both ends. */
  function Trim(side: Side, s: string): string {
    var t := TrimEnd(side, s);
    if side == Python then TrimStart(side, t) else t
  }

  /** Splitting at every semicolon. */
  function Split(s: string): (parts: seq<string>)
    ensures parts != []
  {
    if s == [] then [""]
    else
      var parts, ch := Split(s[..|s| - 1]), s[|s| - 1];
      if ch == ';' then parts + [""]
      else parts[..|parts| - 1] + [parts[|parts| - 1] + [ch]]
  }

  function FirstEquals(part: string): (k: nat)
    ensures k <= |part| && '=' !in part[..k] && (k < |part| ==> part[k] == '=')
  {
    if part == [] || part[0] == '=' then 0
    else
      assert forall k :: 0 <= k <= |part[1..]| ==> part[..k + 1] == [part[0]] + part[1..][..k];
      1 + FirstEquals(part[1..])
  }

  /** The entry in one part, if it holds an equals sign at all. */
  function ReadPart(part: string): Option<Entry> {
    var k := FirstEquals(part);
    if k == |part| then None else Some(Entry(part[..k], part[k + 1..]))
  }

  function Insert(m: map<string, string>, part: string): map<string, string> {
    match ReadPart(part)
    case None => m
    case Some(e) => m[e.key := e.value]
  }

  function Collect(parts: seq<string>): map<string, string> {
    if parts == [] then map[] else Insert(Collect(parts[..|parts| - 1]), parts[|parts| - 1])
  }

  function Decoded(side: Side, line: string): map<string, string> { Collect(Split(Trim(side, line))) }

  method Decode(side: Side, line: string) returns (out: map<string, string>)
    ensures out == Decoded(side, line)
  {
    var parts := Split(Trim(side, line));
    out := map[];
    for i := 0 to |parts|
      invariant out == Collect(parts[..i])
    {
      assert parts[..i + 1][..i] == parts[..i];
      var part := parts[i];
      var k := FirstEquals(part);
      if k < |part| { out := out[part[..k] := part[k + 1..]]; }
    }
    assert parts[..|parts|] == parts;
  }

  function Part(e: Entry): string { e.key + "=" + e.value }

  function Parts(es: seq<Entry>): (ps: seq<string>)
    ensures |ps| == |es| && forall i :: 0 <= i < |es| ==> ps[i] == Part(es[i])
  {
    if es == [] then [] else Parts(es[..|es| - 1]) + [Part(es[|es| - 1])]
  }

  function Join(parts: seq<string>): string {
    if parts == [] then ""
    else if |parts| == 1 then parts[0]
    else Join(parts[..|parts| - 1]) + ";" + parts[|parts| - 1]
  }

  /** The line for a list of entries. */
  function Line(es: seq<Entry>): string { Join(Parts(es)) + "\n" }

  /** An order in which a map can be walked: every key once. */
  predicate Enumerates(order: seq<string>, m: map<string, string>) {
    && (forall i :: 0 <= i < |order| ==> order[i] in m)
    && (forall k :: k in m ==> k in order)
    && (forall i, j :: 0 <= i < j < |order| ==> order[i] != order[j])
  }

  function Entries(m: map<string, string>, order: seq<string>): (es: seq<Entry>)
    requires forall i :: 0 <= i < |order| ==> order[i] in m
    ensures |es| == |order| && forall i :: 0 <= i < |order| ==> es[i] == Entry(order[i], m[order[i]])
  {
    if order == [] then [] else Entries(m, order[..|order| - 1]) + [Entry(order[|order| - 1], m[order[|order| - 1]])]
  }

  /** Rust's encoder; a BTreeMap walks its keys in ascending order. */
  method Encode(m: map<string, string>, order: seq<string>) returns (out: string)
    requires Enumerates(order, m)
    ensures out == Line(Entries(m, order))
  {
    hide Part, Parts, Entries;
    var es := Entries(m, order);
    out := "";
    for i := 0 to |order|
      invariant out == Join(Parts(es)[..i])
    {
      assert Parts(es)[..i + 1][..i] == Parts(es)[..i];
      if i != 0 { out := out + ";"; }
      out := out + Part(es[i]);
    }
    assert Parts(es)[..|order|] == Parts(es);
    out := out + "\n";
  }

  /** Python's encoder refuses a value that holds a separator; None is the
      raised ValueError. */
  method EncodeKv(m: map<string, string>, order: seq<string>) returns (out: Option<string>)
    requires Enumerates(order, m)
    ensures out == None <==> exists k :: k in m && (';' in m[k] || '=' in m[k])
    ensures out.Some? ==> out.value == Line(Entries(m, order))
  {
    hide Part, Parts, Entries, Join;
    var es := Entries(m, order);
    var parts: seq<string> := [];
    for i := 0 to |order|
      invariant parts == Parts(es)[..i]
      invariant forall j :: 0 <= j < i ==> ';' !in m[order[j]] && '=' !in m[order[j]]
    {
      var text := m[order[i]];
      if ';' in text || '=' in text { return None; }
      assert Parts(es)[..i + 1] == Parts(es)[..i] + [Parts(es)[i]];
      parts := parts + [Part(es[i])];
    }
    assert Parts(es)[..|order|] == Parts(es);
    return Some(Join(parts) + "\n");
  }

  // ---------------------------------------------------------------- splitting undoes joining

  lemma {:induction false} SplitPlain(p: string)
    requires ';' !in p
    ensures Split(p) == [p]
  {
    if p != [] {
      SplitPlain(p[..|p| - 1]);
      assert p == p[..|p| - 1] + [p[|p| - 1]];
    }
  }

  lemma {:induction false} SplitAppend(a: string, p: string)
    requires ';' !in p
    ensures Split(a + ";" + p) == Split(a) + [p]
  {
    var s := a + ";" + p;
    if p == [] {
      assert s[..|s| - 1] == a;
    } else {
      var q, ch := p[..|p| - 1], p[|p| - 1];
      assert s[..|s| - 1] == a + ";" + q;
      assert s[|s| - 1] == ch;
      SplitAppend(a, q);
      var parts := Split(a) + [q];
      assert parts[..|parts| - 1] == Split(a);
      assert q + [ch] == p;
    }
  }

  lemma {:induction false} JoinOne(p: string)
    ensures Join([p]) == p
  {
  }

  lemma {:induction false} JoinSnoc(ps: seq<string>, p: string)
    requires ps != []
    ensures Join(ps + [p]) == Join(ps) + ";" + p
  {
    assert (ps + [p])[..|ps|] == ps;
  }

  lemma {:induction false} SplitJoin(ps: seq<string>)
    requires ps != [] && forall i :: 0 <= i < |ps| ==> ';' !in ps[i]
    ensures Split(Join(ps)) == ps
  {
    hide Split, Join;
    var n := |ps| - 1;
    if n == 0 {
      assert ps == [ps[0]];
      JoinOne(ps[0]);
      SplitPlain(ps[0]);
    } else {
      var init, last := ps[..n], ps[n];
      assert ps == init + [last];
      SplitJoin(init);
      SplitAppend(Join(init), last);
      JoinSnoc(init, last);
    }
  }

  lemma {:induction false} SplitLeavesNone(s: string)
    ensures forall i :: 0 <= i < |Split(s)| ==> ';' !in Split(s)[i]
  {
    if s != [] { SplitLeavesNone(s[..|s| - 1]); }
  }

  lemma ReadPartBack(e: Entry)
    requires '=' !in e.key
    ensures ReadPart(Part(e)) == Some(e)
  {
    var part := Part(e);
    var k := FirstEquals(part);
    assert part[|e.key|] == '=';
    assert forall i :: 0 <= i < |e.key| ==> part[i] == e.key[i];
    assert forall i :: 0 <= i < k ==> part[i] == part[..k][i];
    assert part[..k] == e.key;
    assert part[k + 1..] == e.value;
  }

  function ToMap(es: seq<Entry>): map<string, string> {
    if es == [] then map[] else var e := es[|es| - 1]; ToMap(es[..|es| - 1])[e.key := e.value]
  }

  lemma {:induction false} CollectParts(es: seq<Entry>)
    requires forall i :: 0 <= i < |es| ==> '=' !in es[i].key
    ensures Collect(Parts(es)) == ToMap(es)
  {
    if es != [] {
      hide Part, ReadPart;
      var n := |es| - 1;
      assert Parts(es)[..n] == Parts(es[..n]);
      CollectParts(es[..n]);
      ReadPartBack(es[n]);
    }
  }

  // ---------------------------------------------------------------- what trimming does to a line

  lemma {:induction false} TrimEndKeeps(side: Side, a: string, v: string)
    requires a != [] && !White(side, a[|a| - 1])
    ensures TrimEnd(side, a + v) == a + TrimEnd(side, v)
  {
    hide White;
    if v == [] {
      assert a + v == a;
    } else {
      assert (a + v)[..|a + v| - 1] == a + v[..|v| - 1];
      TrimEndKeeps(side, a, v[..|v| - 1]);
    }
  }

  lemma {:induction false} TrimStartKeeps(side: Side, k: string, b: string)
    requires b != [] && !White(side, b[0])
    ensures TrimStart(side, k + b) == TrimStart(side, k) + b
  {
    hide White;
    if k == [] {
      assert k + b == b;
    } else {
      assert (k + b)[1..] == k[1..] + b;
      TrimStartKeeps(side, k[1..], b);
    }
  }

  lemma {:induction false} TrimEndPrefix(side: Side, s: string)
    ensures TrimEnd(side, s) <= s
    ensures TrimEnd(side, s) == s <==> s == [] || !White(side, s[|s| - 1])
  {
    hide White;
    if s != [] { TrimEndPrefix(side, s[..|s| - 1]); }
  }

  lemma {:induction false} TrimStartSuffix(side: Side, s: string)
    ensures var t := TrimStart(side, s); |t| <= |s| && t == s[|s| - |t|..]
    ensures TrimStart(side, s) == s <==> s == [] || !White(side, s[0])
  {
    hide White;
    if s != [] { TrimStartSuffix(side, s[1..]); }
  }

  /** The joined line without its first key. */
  function AfterFirstKey(es: seq<Entry>): string
    requires es != []
  {
    var n := |es| - 1;
    if n == 0 then "=" + es[0].value else AfterFirstKey(es[..n]) + ";" + Part(es[n])
  }

  lemma {:induction false} JoinHead(es: seq<Entry>)
    requires es != []
    ensures Join(Parts(es)) == es[0].key + AfterFirstKey(es)
    ensures AfterFirstKey(es) != [] && AfterFirstKey(es)[0] == '='
  {
    hide Join, Parts, AfterFirstKey, Part;
    var n := |es| - 1;
    if n == 0 {
      assert es == [es[0]];
      JoinHeadOne(es[0]);
    } else {
      var init, last := es[..n], es[n];
      assert es == init + [last];
      JoinHead(init);
      PartsSnoc(init, last);
      AfterSnoc(init, last);
      JoinSnoc(Parts(init), Part(last));
      Regroup(init[0].key, AfterFirstKey(init), Part(last));
    }
  }

  lemma {:induction false} JoinHeadOne(e: Entry)
    ensures Join(Parts([e])) == e.key + AfterFirstKey([e])
    ensures AfterFirstKey([e]) != [] && AfterFirstKey([e])[0] == '='
  {
    hide Join;
    assert Parts([e]) == [Part(e)];
    JoinOne(Part(e));
  }

  lemma {:induction false} PartsSnoc(init: seq<Entry>, e: Entry)
    ensures Parts(init + [e]) == Parts(init) + [Part(e)] && |Parts(init)| == |init|
  {
    assert (init + [e])[..|init|] == init;
  }

  lemma {:induction false} AfterSnoc(init: seq<Entry>, e: Entry)
    requires init != []
    ensures AfterFirstKey(init + [e]) == AfterFirstKey(init) + ";" + Part(e)
  {
    hide Part;
    assert (init + [e])[..|init|] == init;
  }

  lemma Regroup(a: string, b: string, c: string)
    ensures (a + b) + ";" + c == a + (b + ";" + c)
  {
  }

  lemma {:induction false} RestKeepsKey(es: seq<Entry>, k: string)
    requires es != []
    ensures AfterFirstKey(es[0 := Entry(k, es[0].value)]) == AfterFirstKey(es)
  {
    var n := |es| - 1;
    if n > 0 {
      assert es[0 := Entry(k, es[0].value)][..n] == es[..n][0 := Entry(k, es[0].value)];
      RestKeepsKey(es[..n], k);
    }
  }

  /** The joined line without its last value. */
  function BeforeLastValue(es: seq<Entry>): string
    requires es != []
  {
    var n := |es| - 1;
    (if n == 0 then "" else Join(Parts(es[..n])) + ";") + es[n].key + "="
  }

  lemma {:induction false} JoinTail(es: seq<Entry>)
    requires es != []
    ensures Join(Parts(es)) == BeforeLastValue(es) + es[|es| - 1].value
  {
    hide Join, Parts;
    var n := |es| - 1;
    var init, last := es[..n], es[n];
    assert es == init + [last];
    PartsSnoc(init, last);
    if n == 0 {
      assert Parts(es) == [Part(last)];
      JoinOne(Part(last));
    } else {
      JoinSnoc(Parts(init), Part(last));
    }
  }

  function WithLastValue(es: seq<Entry>, v: string): seq<Entry>
    requires es != []
  {
    es[..|es| - 1] + [Entry(es[|es| - 1].key, v)]
  }

  function WithFirstKey(es: seq<Entry>, k: string): seq<Entry>
    requires es != []
  {
    es[0 := Entry(k, es[0].value)]
  }

  /** The entries a reader sees: the last value, and in Python the first key, trimmed. */
  function Trimmed(side: Side, es: seq<Entry>): seq<Entry>
    requires es != []
  {
    var ts := WithLastValue(es, TrimEnd(side, es[|es| - 1].value));
    if side == Python then WithFirstKey(ts, TrimStart(side, ts[0].key)) else ts
  }

  lemma TrimLineEnd(side: Side, es: seq<Entry>)
    requires es != []
    ensures TrimEnd(side, Line(es)) == Join(Parts(WithLastValue(es, TrimEnd(side, es[|es| - 1].value))))
  {
    hide TrimEnd, Join, Parts;
    var v := es[|es| - 1].value;
    var a, ts := BeforeLastValue(es), WithLastValue(es, TrimEnd(side, v));
    JoinTail(es);
    assert Line(es) == a + (v + "\n");
    TrimEndKeeps(side, a, v + "\n");
    DropNewline(side, v);
    JoinTail(ts);
    assert ts[..|es| - 1] == es[..|es| - 1];
  }

  lemma DropNewline(side: Side, v: string)
    ensures TrimEnd(side, v + "\n") == TrimEnd(side, v)
  {
    assert (v + "\n")[..|v|] == v;
  }

  lemma TrimLine(side: Side, es: seq<Entry>)
    requires es != []
    ensures Trim(side, Line(es)) == Join(Parts(Trimmed(side, es)))
  {
    hide TrimEnd, TrimStart, Join, Parts, AfterFirstKey, Line;
    TrimLineEnd(side, es);
    var ts := WithLastValue(es, TrimEnd(side, es[|es| - 1].value));
    if side == Python {
      var k := TrimStart(side, ts[0].key);
      JoinHead(ts);
      TrimStartKeeps(side, ts[0].key, AfterFirstKey(ts));
      JoinHead(WithFirstKey(ts, k));
      RestKeepsKey(ts, k);
    }
  }

  // ---------------------------------------------------------------- entries and their map

  predicate Distinct(es: seq<Entry>) { forall i, j :: 0 <= i < j < |es| ==> es[i].key != es[j].key }

  /** An entry the line can carry. */
  predicate Fits(e: Entry) { '=' !in e.key && ';' !in e.key && ';' !in e.value }

  predicate AllFit(es: seq<Entry>) { forall i :: 0 <= i < |es| ==> Fits(es[i]) }

  /** Nothing a reader would trim away: the last value does not end in white
      space and, for Python, the first key does not begin with it. */
  predicate EdgesClean(side: Side, es: seq<Entry>) {
    es != [] ==>
      var v, k := es[|es| - 1].value, es[0].key;
      && (v == [] || !White(side, v[|v| - 1]))
      && (side == Python ==> k == [] || !White(side, k[0]))
  }

  lemma {:induction false} ToMapHas(es: seq<Entry>)
    requires Distinct(es)
    ensures forall i :: 0 <= i < |es| ==> es[i].key in ToMap(es) && ToMap(es)[es[i].key] == es[i].value
  {
    if es != [] {
      var n := |es| - 1;
      ToMapHas(es[..n]);
      assert forall i :: 0 <= i < n ==> es[..n][i] == es[i];
    }
  }

  lemma {:induction false} ToMapFrom(es: seq<Entry>, k: string)
    requires k in ToMap(es)
    ensures exists i :: 0 <= i < |es| && es[i].key == k
  {
    var n := |es| - 1;
    if es[n].key != k {
      ToMapFrom(es[..n], k);
      var i :| 0 <= i < n && es[..n][i].key == k;
      assert es[i].key == k;
    }
  }

  lemma {:induction false} CollectFits(parts: seq<string>)
    requires forall i :: 0 <= i < |parts| ==> ';' !in parts[i]
    ensures forall k :: k in Collect(parts) ==> Fits(Entry(k, Collect(parts)[k]))
  {
    if parts != [] { CollectFits(parts[..|parts| - 1]); }
  }

  lemma DecodedFits(side: Side, line: string)
    ensures forall k :: k in Decoded(side, line) ==> Fits(Entry(k, Decoded(side, line)[k]))
  {
    SplitLeavesNone(Trim(side, line));
    CollectFits(Split(Trim(side, line)));
  }

  lemma TrimmedFits(side: Side, es: seq<Entry>)
    requires es != [] && AllFit(es)
    ensures AllFit(Trimmed(side, es))
  {
    hide TrimEnd, TrimStart, White;
    TrimEndPrefix(side, es[|es| - 1].value);
    var ts := WithLastValue(es, TrimEnd(side, es[|es| - 1].value));
    assert AllFit(ts);
    TrimStartSuffix(side, ts[0].key);
  }

  lemma TrimmedSame(side: Side, es: seq<Entry>)
    requires es != []
    ensures EdgesClean(side, es) <==> Trimmed(side, es) == es
  {
    hide TrimEnd, TrimStart, White;
    var n := |es| - 1;
    TrimEndPrefix(side, es[n].value);
    TrimStartSuffix(side, es[0].key);
    var ts := WithLastValue(es, TrimEnd(side, es[n].value));
    assert ts[0].key == es[0].key;
    assert Trimmed(side, es)[n].value == TrimEnd(side, es[n].value);
    assert side == Python ==> Trimmed(side, es)[0].key == TrimStart(side, es[0].key);
  }

  /** Trimming changes the map whenever it changes the entries. */
  lemma TrimmedMap(side: Side, es: seq<Entry>)
    requires es != [] && Distinct(es) && ToMap(Trimmed(side, es)) == ToMap(es)
    ensures Trimmed(side, es) == es
  {
    hide ToMap, Trimmed;
    var n, ts := |es| - 1, Trimmed(side, es);
    TrimmedShape(side, es);
    ToMapHas(es);
    var i := KeyIn(ts, es[0].key);
    assert ts[0].key == es[0].key;
    assert Distinct(ts);
    ToMapHas(ts);
    assert ToMap(es)[es[n].key] == es[n].value && ToMap(ts)[ts[n].key] == ts[n].value;
    assert forall j :: 0 <= j < |es| ==> ts[j] == es[j];
  }

  lemma TrimmedShape(side: Side, es: seq<Entry>)
    requires es != []
    ensures var n, ts := |es| - 1, Trimmed(side, es);
            && |ts| == n + 1
            && (forall i :: 0 < i <= n ==> ts[i].key == es[i].key) && (forall i :: 0 <= i < n ==> ts[i].value == es[i].value)
  {
    hide TrimEnd, TrimStart, White;
  }

  lemma KeyIn(es: seq<Entry>, k: string) returns (i: nat)
    requires k in ToMap(es)
    ensures i < |es| && es[i].key == k
  {
    ToMapFrom(es, k);
    i :| 0 <= i < |es| && es[i].key == k;
  }

  lemma DecodeEntries(side: Side, es: seq<Entry>)
    requires es != [] && AllFit(es)
    ensures Decoded(side, Line(es)) == ToMap(Trimmed(side, es))
  {
    hide Line, Trim, Split, Collect, Join, Trimmed, ToMap, Parts;
    var ts := Trimmed(side, es);
    TrimmedFits(side, es);
    TrimmedShape(side, es);
    TrimLine(side, es);
    forall i | 0 <= i < |ts| ensures ';' !in Parts(ts)[i] { assert Fits(ts[i]); }
    SplitJoin(Parts(ts));
    forall i | 0 <= i < |ts| ensures '=' !in ts[i].key { assert Fits(ts[i]); }
    CollectParts(ts);
  }

  /** A line is read back as the map it was written from exactly when every
      entry fits and neither edge is trimmed. */
  lemma DecodeExact(side: Side, es: seq<Entry>)
    requires Distinct(es)
    ensures Decoded(side, Line(es)) == ToMap(es) <==> AllFit(es) && EdgesClean(side, es)
  {
    if es == [] {
      EmptyLine(side);
    } else {
      hide Line, ToMap, Trimmed, Fits, EdgesClean, Distinct, Decoded;
      ToMapHas(es);
      if Decoded(side, Line(es)) == ToMap(es) {
        DecodedFits(side, Line(es));
        forall i | 0 <= i < |es| ensures Fits(es[i]) { assert es[i].key in ToMap(es); }
      }
      TrimmedSame(side, es);
      if AllFit(es) {
        DecodeEntries(side, es);
        if Decoded(side, Line(es)) == ToMap(es) { TrimmedMap(side, es); }
      }
    }
  }

  lemma EmptyLine(side: Side)
    ensures Decoded(side, Line([])) == map[]
  {
    assert Join(Parts([])) + "\n" == "\n";
    assert "\n"[..0] == "";
    assert Split("") == [""];
    assert [""][..0] == [];
  }

  // ---------------------------------------------------------------- maps

  lemma {:induction false} ToMapEntries(m: map<string, string>, order: seq<string>)
    requires Enumerates(order, m)
    ensures ToMap(Entries(m, order)) == m && Distinct(Entries(m, order))
  {
    hide ToMap, Entries;
    var es := Entries(m, order);
    assert Distinct(es);
    ToMapHas(es);
    forall k | k in m ensures k in ToMap(es) && ToMap(es)[k] == m[k] {
      var i :| 0 <= i < |order| && order[i] == k;
      assert es[i].key == k;
    }
    forall k | k in ToMap(es) ensures k in m {
      var i := KeyIn(es, k);
    }
  }

  /** The round trip through either reader, for any map and any order of its keys. */
  lemma RoundTrip(side: Side, m: map<string, string>, order: seq<string>)
    requires Enumerates(order, m)
    ensures Decoded(side, Line(Entries(m, order))) == m <==>
            && (forall k :: k in m ==> Fits(Entry(k, m[k])))
            && EdgesClean(side, Entries(m, order))
  {
    hide Decoded, Line, Fits, EdgesClean, Entries, ToMap;
    var es := Entries(m, order);
    ToMapEntries(m, order);
    DecodeExact(side, es);
    if AllFit(es) {
      forall k | k in m ensures Fits(Entry(k, m[k])) {
        var i :| 0 <= i < |order| && order[i] == k;
        assert Fits(es[i]);
      }
    }
  }

  /** Python's line for a map its encoder takes reaches Rust unchanged exactly
      when the keys are plain and the value inserted last does not end in
      white space; so in any insertion order if no value does. */
  lemma PythonToRust(m: map<string, string>, order: seq<string>)
    requires Enumerates(order, m)
    requires forall k :: k in m ==> '=' !in m[k] && ';' !in m[k]
    ensures Decoded(Rust, Line(Entries(m, order))) == m <==>
            && (forall k :: k in m ==> '=' !in k && ';' !in k)
            && (order != [] ==> !EndsWhite(m[order[|order| - 1]]))
    ensures (forall k :: k in m ==> '=' !in k && ';' !in k && !EndsWhite(m[k])) ==>
            Decoded(Rust, Line(Entries(m, order))) == m
  {
    hide Decoded, Line, White;
    RoundTrip(Rust, m, order);
    if order != [] { assert order[|order| - 1] in m; }
    if (forall k :: k in m ==> Fits(Entry(k, m[k]))) {
      forall k | k in m ensures '=' !in k && ';' !in k { assert Fits(Entry(k, m[k])); }
    }
  }

  /** The value ends in a character that Rust would trim. */
  predicate EndsWhite(v: string) { v != [] && White(Rust, v[|v| - 1]) }

  /** Two maps a reader can carry never share a line. */
  lemma LineInjective(side: Side, m: map<string, string>, order: seq<string>, m': map<string, string>, order': seq<string>)
    requires Enumerates(order, m) && Enumerates(order', m')
    requires (forall k :: k in m ==> Fits(Entry(k, m[k]))) && EdgesClean(side, Entries(m, order))
    requires (forall k :: k in m' ==> Fits(Entry(k, m'[k]))) && EdgesClean(side, Entries(m', order'))
    requires Line(Entries(m, order)) == Line(Entries(m', order'))
    ensures m == m'
  {
    hide Decoded, Line, Fits, EdgesClean, Entries;
    RoundTrip(side, m, order);
    RoundTrip(side, m', order');
  }

  // ---------------------------------------------------------------- any line

  /** Trimming removes white space, all of it, and nothing else. */
  lemma {:induction false} TrimEndExact(side: Side, s: string)
    ensures var t := TrimEnd(side, s);
            && t <= s && (t == [] || !White(side, t[|t| - 1]))
            && forall i :: |t| <= i < |s| ==> White(side, s[i])
  {
    hide White;
    if s != [] && White(side, s[|s| - 1]) { TrimEndExact(side, s[..|s| - 1]); }
  }

  lemma {:induction false} TrimStartExact(side: Side, s: string)
    ensures var t := TrimStart(side, s);
            && |t| <= |s| && t == s[|s| - |t|..] && (t == [] || !White(side, t[0]))
            && forall i :: 0 <= i < |s| - |t| ==> White(side, s[i])
  {
    hide White;
    if s != [] && White(side, s[0]) { TrimStartExact(side, s[1..]); }
  }

  predicate Blank(ch: char) { ch == ' ' || ch == '\t' || ch == '\r' || ch == '\n' }

  /** Both readers ignore a blank after a line, and Python one before it. */
  lemma PaddingIgnored(side: Side, line: string, ch: char)
    requires Blank(ch)
    ensures Decoded(side, line + [ch]) == Decoded(side, line)
    ensures side == Python ==> Decoded(side, [ch] + line) == Decoded(side, line)
  {
    hide TrimStart, Split, Collect;
    assert (line + [ch])[..|line|] == line;
    if side == Python {
      PaddedStart(side, line, ch);
      var t := TrimEnd(side, line);
      if t != [] { StartPadded(side, t, ch); }
    }
  }

  lemma StartPadded(side: Side, t: string, ch: char)
    requires Blank(ch)
    ensures TrimStart(side, [ch] + t) == TrimStart(side, t)
  {
    assert ([ch] + t)[1..] == t;
  }

  lemma {:induction false} PaddedStart(side: Side, line: string, ch: char)
    requires Blank(ch)
    ensures TrimEnd(side, [ch] + line) == var t := TrimEnd(side, line); if t == [] then [] else [ch] + t
  {
    var padded := [ch] + line;
    if line == [] {
      assert padded == [ch] && padded[..0] == [];
    } else {
      var n := |line| - 1;
      assert padded[|line|] == line[n] && padded[..|line|] == [ch] + line[..n];
      if White(side, line[n]) { PaddedStart(side, line[..n], ch); }
    }
  }

  /** The parts of a line hold no semicolon and, joined, are the line. */
  lemma {:induction false} JoinSplit(s: string)
    ensures Join(Split(s)) == s
  {
    if s != [] {
      var front, ch := s[..|s| - 1], s[|s| - 1];
      JoinSplit(front);
      assert s == front + [ch];
      var parts := Split(front);
      if ch == ';' {
        hide Split;
        JoinSnoc(parts, "");
      } else {
        hide Split;
        JoinExtend(parts, ch);
      }
    }
  }

  lemma {:induction false} JoinExtend(parts: seq<string>, ch: char)
    requires parts != []
    ensures Join(parts[..|parts| - 1] + [parts[|parts| - 1] + [ch]]) == Join(parts) + [ch]
  {
    hide Join;
    var init, last := parts[..|parts| - 1], parts[|parts| - 1];
    assert parts == init + [last];
    if init == [] {
      JoinOne(last);
      JoinOne(last + [ch]);
      assert init + [last] == [last] && init + [last + [ch]] == [last + [ch]];
    } else {
      JoinSnoc(init, last);
      JoinSnoc(init, last + [ch]);
    }
  }

  /** The part spells the entry: its key ends at the first equals sign. */
  predicate Spells(part: string, k: string, v: string) { part == k + "=" + v && '=' !in k }

  lemma ReadPartExact(part: string, k: string, v: string)
    ensures ReadPart(part) == Some(Entry(k, v)) <==> Spells(part, k, v)
  {
    if Spells(part, k, v) { ReadPartBack(Entry(k, v)); }
    var n := FirstEquals(part);
    if n < |part| { assert part == part[..n] + [part[n]] + part[n + 1..]; }
  }

  /** `parts[i]` spells the entry, and no later part begins with its key. */
  predicate LastSpelled(parts: seq<string>, i: int, k: string, v: string) {
    && 0 <= i < |parts| && Spells(parts[i], k, v)
    && forall j :: i < j < |parts| ==> !(k + "=" <= parts[j])
  }

  ghost predicate Means(parts: seq<string>, k: string, v: string) { exists i :: LastSpelled(parts, i, k, v) }

  lemma {:induction false} PlainKeys(parts: seq<string>, k: string)
    requires k in Collect(parts)
    ensures '=' !in k
  {
    if parts != [] {
      var n := |parts| - 1;
      if ReadPart(parts[n]).Some? && ReadPart(parts[n]).value.key == k {
        ReadPartExact(parts[n], k, ReadPart(parts[n]).value.value);
      } else {
        PlainKeys(parts[..n], k);
      }
    }
  }

  /** What any line at all means to a reader: a key has a value exactly when the
      last part that begins with the key and an equals sign spells that value. */
  lemma {:induction false} CollectMeans(parts: seq<string>, k: string, v: string)
    requires '=' !in k
    ensures k in Collect(parts) && Collect(parts)[k] == v <==> Means(parts, k, v)
  {
    hide ReadPart;
    if parts != [] {
      var n := |parts| - 1;
      var front, part := parts[..n], parts[n];
      CollectMeans(front, k, v);
      assert forall j :: 0 <= j < n ==> front[j] == parts[j];
      BeginsReads(part, k);
      if k + "=" <= part {
        ReadPartExact(part, k, part[|k| + 1..]);
        if i :| LastSpelled(parts, i, k, v) { assert i == n; }
        if part[|k| + 1..] == v { assert LastSpelled(parts, n, k, v); }
      } else {
        assert k + "=" <= k + "=" + v;
        assert !Spells(part, k, v);
        if i :| LastSpelled(front, i, k, v) { assert LastSpelled(parts, i, k, v); }
        if i :| LastSpelled(parts, i, k, v) { assert i < n && LastSpelled(front, i, k, v); }
      }
    }
  }

  lemma BeginsReads(part: string, k: string)
    requires '=' !in k
    ensures k + "=" <= part <==> ReadPart(part).Some? && ReadPart(part).value.key == k
    ensures k + "=" <= part ==> Spells(part, k, part[|k| + 1..])
  {
    hide ReadPart;
    if k + "=" <= part {
      assert part == k + "=" + part[|k| + 1..];
      ReadPartExact(part, k, part[|k| + 1..]);
    }
    if ReadPart(part).Some? && ReadPart(part).value.key == k {
      ReadPartExact(part, k, ReadPart(part).value.value);
      assert k + "=" <= part;
    }
  }

  lemma LineMeans(side: Side, line: string, k: string, v: string)
    ensures k in Decoded(side, line) && Decoded(side, line)[k] == v <==>
            '=' !in k && Means(Split(Trim(side, line)), k, v)
  {
    hide Split, Trim, Means;
    var parts := Split(Trim(side, line));
    if k in Collect(parts) { PlainKeys(parts, k); }
    if '=' !in k { CollectMeans(parts, k, v); }
  }
}

/** The bootstrap manifest: a header line, then one `key=value` line for each
    key in a fixed order. */
module Bootstrap {
  import opened Values
  import opened Text

  const HEADER: string := "uflow-ddr-authority-v3\n"
  const MAX_BOOTSTRAP: nat := 4096
  const DOMAIN: string := "external-ddr-v0"

  const AUTHORITY_KEYS: seq<string> := [
    "domain", "host", "boot", "endpoint", "owner_limit", "total_limit", "revision", "dir_dev", "dir_ino"]

  const FILE_KEYS: seq<string> := [
    "lock_dev", "lock_ino", "state_dev", "state_ino", "journal_dev", "journal_ino"]

  const TRUST_KEYS: seq<string> := ["journal_head_dev", "journal_head_ino", "witness_trust_dev", "witness_trust_ino"]

  const BOOTSTRAP_KEYS: seq<string> := AUTHORITY_KEYS + FILE_KEYS + TRUST_KEYS

  /** Where the domain, the first integer, the cap revision and the directory
      identity stand among the keys. */
  const FIRST_INT: nat := 4
  const REVISION: nat := 6
  const DIR_DEV: nat := 7
  const DIR_INO: nat := 8

  // ---------------------------------------------------------------- lines of text

  /** Where `str.splitlines` breaks, within ASCII. */
  predicate IsBreak(ch: char) {
    var n := ch as int;
    10 <= n <= 13 || 28 <= n <= 30
  }

  function LineLength(s: string): (k: nat)
    requires s != []
    ensures 0 < k <= |s|
  {
    if s[0] == '\r' then (if |s| > 1 && s[1] == '\n' then 2 else 1)
    else if IsBreak(s[0]) || |s| == 1 then 1
    else 1 + LineLength(s[1..])
  }

  function SplitText(s: string): seq<string> {
    if s == [] then [] else [s[..LineLength(s)]] + SplitText(s[LineLength(s)..])
  }

  function Concat(lines: seq<string>): string {
    if lines == [] then [] else lines[0] + Concat(lines[1..])
  }

  /** One line ending in a line feed: no break inside, except that the
      character before the line feed may be a carriage return. */
  predicate OneLine(s: string) {
    && |s| > 0 && s[|s| - 1] == '\n'
    && (forall i :: 0 <= i < |s| - 1 ==> IsBreak(s[i]) ==> i == |s| - 2 && s[i] == '\r')
  }

  lemma {:induction false} LineLengthOf(x: string, rest: string)
    requires OneLine(x)
    ensures LineLength(x + rest) == |x|
  {
    if |x| > 1 && x[0] != '\r' {
      assert (x + rest)[1..] == x[1..] + rest;
      LineLengthOf(x[1..], rest);
    }
  }

  lemma {:induction false} SplitOneLines(lines: seq<string>)
    requires forall i :: 0 <= i < |lines| ==> OneLine(lines[i])
    ensures SplitText(Concat(lines)) == lines
  {
    if lines != [] {
      hide LineLength, OneLine;
      var x, rest := lines[0], Concat(lines[1..]);
      LineLengthOf(x, rest);
      assert OneLine(x);
      OneLineNonEmpty(x);
      assert (x + rest)[..|x|] == x && (x + rest)[|x|..] == rest;
      SplitOneLines(lines[1..]);
    }
  }

  lemma OneLineNonEmpty(x: string)
    requires OneLine(x)
    ensures x != []
  {
  }

  lemma {:induction false} SplitLossless(s: string)
    ensures Concat(SplitText(s)) == s
  {
    if s != [] { SplitLossless(s[LineLength(s)..]); }
  }

  /** A piece that ends in a line feed is one line. */
  lemma {:induction false} PieceIsOneLine(s: string)
    requires s != [] && s[..LineLength(s)][LineLength(s) - 1] == '\n'
    ensures OneLine(s[..LineLength(s)])
  {
    var k := LineLength(s);
    if s[0] != '\r' && !IsBreak(s[0]) && |s| > 1 {
      assert s[..k][1..] == s[1..][..k - 1];
      PieceIsOneLine(s[1..]);
      assert forall i :: 1 <= i < k ==> s[..k][i] == s[1..][..k - 1][i - 1];
    }
  }

  lemma {:induction false} PiecesAreOneLines(s: string, i: int)
    requires 0 <= i < |SplitText(s)| && SplitText(s)[i] != [] && SplitText(s)[i][|SplitText(s)[i]| - 1] == '\n'
    ensures OneLine(SplitText(s)[i])
  {
    if i == 0 {
      PieceIsOneLine(s);
    } else {
      PiecesAreOneLines(s[LineLength(s)..], i - 1);
    }
  }

  // ---------------------------------------------------------------- printing

  function FieldLine(key: string, value: string): string { key + "=" + value + "\n" }

  function FieldLines(keys: seq<string>, values: seq<string>): (lines: seq<string>)
    requires |keys| == |values|
    ensures |lines| == |keys|
    ensures forall i :: 0 <= i < |keys| ==> lines[i] == FieldLine(keys[i], values[i])
  {
    if keys == [] then []
    else FieldLines(keys[..|keys| - 1], values[..|keys| - 1]) + [FieldLine(keys[|keys| - 1], values[|keys| - 1])]
  }

  function Print(keys: seq<string>, values: seq<string>): string
    requires |keys| == |values|
  {
    HEADER + Concat(FieldLines(keys, values))
  }

  // ---------------------------------------------------------------- parsing

  predicate Ascii(s: string) { forall i :: 0 <= i < |s| ==> s[i] as int < 128 }

  /** The value in one line, or None where an error is raised. */
  function ReadField(key: string, line: string): Option<string> {
    var head := key + "=";
    if !(head <= line) || line[|line| - 1] != '\n' || |line| <= |head| then None
    else
      var value := line[|head|..|line| - 1];
      if value == [] || '=' in value || '\n' in value then None else Some(value)
  }

  function ReadFields(keys: seq<string>, lines: seq<string>): Option<seq<string>>
    requires |keys| == |lines|
  {
    if keys == [] then Some([])
    else
      var n := |keys| - 1;
      match ReadFields(keys[..n], lines[..n])
      case None => None
      case Some(vs) =>
        match ReadField(keys[n], lines[n])
        case None => None
        case Some(v) => Some(vs + [v])
  }

  predicate CanonicalInt(v: string) { v != [] && AllDigits(v) && Decimal(Value(v)) == v }

  /** The checks on the values, against the identity of the root directory. */
  predicate ValuesOk(values: seq<string>, dev: int, ino: int) {
    && |values| > DIR_INO && values[0] == DOMAIN
    && (forall i :: FIRST_INT <= i < |values| ==> CanonicalInt(values[i]))
    && Value(values[REVISION]) != 0 && Value(values[DIR_DEV]) == dev && Value(values[DIR_INO]) == ino
  }

  method Parse(keys: seq<string>, raw: string, dev: int, ino: int) returns (r: Option<seq<string>>)
    requires KeysOk(keys)
    ensures r.Some? ==> Parses(keys, raw, dev, ino, r.value)
    ensures forall values :: Parses(keys, raw, dev, ino, values) ==> r == Some(values)
    ensures |raw| > 4096 ==> r == None
  {
    hide Parses, SplitText, KeysOk, HEADER, ValuesOk, ReadField, Ascii;
    forall values ensures Parses(keys, raw, dev, ino, values) <==> Reads(keys, raw, values) && ValuesOk(values, dev, ino) {
      ReadsExact(keys, raw, dev, ino, values);
    }
    var lines := SplitText(raw);
    if |raw| > MAX_BOOTSTRAP || !Ascii(raw) || |lines| != |keys| + 1 || lines[0] != HEADER {
      return None;
    }
    var body, result: seq<string> := lines[1..], [];
    for i := 0 to |keys|
      invariant ReadFields(keys[..i], body[..i]) == Some(result)
    {
      assert keys[..i + 1][..i] == keys[..i] && body[..i + 1][..i] == body[..i];
      var v := ReadField(keys[i], body[i]);
      if v == None {
        FieldSticks(keys, body, i + 1);
        return None;
      }
      result := result + [v.value];
    }
    assert keys[..|keys|] == keys && body[..|keys|] == body;
    if !ValuesOk(result, dev, ino) { return None; }
    return Some(result);
  }

  /** A value a line can carry. */
  predicate ValueFits(v: string) {
    && v != [] && '=' !in v && Ascii(v)
    && (forall i :: 0 <= i < |v| ==> IsBreak(v[i]) ==> i == |v| - 1 && v[i] == '\r')
  }

  predicate KeyFits(k: string) { Ascii(k) && '=' !in k && forall i :: 0 <= i < |k| ==> !IsBreak(k[i]) }

  predicate KeysOk(keys: seq<string>) { forall i :: 0 <= i < |keys| ==> KeyFits(keys[i]) }

  /** What it means for a text to be the manifest of the given values: it is
      byte for byte their canonical printing, and the values are valid. */
  predicate Parses(keys: seq<string>, raw: string, dev: int, ino: int, values: seq<string>) {
    && |values| == |keys| && raw == Print(keys, values) && |raw| <= MAX_BOOTSTRAP
    && (forall i :: 0 <= i < |values| ==> ValueFits(values[i]))
    && ValuesOk(values, dev, ino)
  }

  // ---------------------------------------------------------------- parser and printer undo each other

  lemma ReadFieldExact(key: string, line: string, v: string)
    requires KeyFits(key) && OneLine(line)
    ensures ReadField(key, line) == Some(v) && Ascii(line) <==> line == FieldLine(key, v) && ValueFits(v)
  {
    var head := key + "=";
    if ReadField(key, line) == Some(v) && Ascii(line) {
      assert line == head + v + "\n";
      assert forall i :: 0 <= i < |v| ==> v[i] == line[|head| + i];
    }
    if line == FieldLine(key, v) && ValueFits(v) {
      assert head <= line;
      assert line[|head|..|line| - 1] == v;
      assert forall i :: 0 <= i < |line| ==>
        line[i] == (if i < |key| then key[i] else if i == |key| then '=' else if i < |line| - 1 then v[i - |head|] else '\n');
    }
  }

  lemma FieldIsOneLine(key: string, v: string)
    requires KeyFits(key) && ValueFits(v)
    ensures OneLine(FieldLine(key, v)) && Ascii(FieldLine(key, v))
  {
    var line := FieldLine(key, v);
    assert forall i :: 0 <= i < |line| ==>
      line[i] == (if i < |key| then key[i] else if i == |key| then '=' else if i < |line| - 1 then v[i - |key| - 1] else '\n');
  }

  lemma {:induction false} FieldSticks(keys: seq<string>, lines: seq<string>, k: nat)
    requires |keys| == |lines| && k <= |keys| && ReadFields(keys[..k], lines[..k]) == None
    ensures ReadFields(keys, lines) == None
    decreases |keys|
  {
    if k == |keys| {
      assert keys[..k] == keys && lines[..k] == lines;
    } else {
      var n := |keys| - 1;
      assert keys[..n][..k] == keys[..k] && lines[..n][..k] == lines[..k];
      FieldSticks(keys[..n], lines[..n], k);
    }
  }

  lemma {:induction false} ReadFieldsExact(keys: seq<string>, lines: seq<string>, vs: seq<string>)
    requires KeysOk(keys) && |keys| == |lines|
    requires forall i :: 0 <= i < |lines| && lines[i] != [] && lines[i][|lines[i]| - 1] == '\n' ==> OneLine(lines[i])
    requires forall i :: 0 <= i < |lines| ==> Ascii(lines[i])
    ensures ReadFields(keys, lines) == Some(vs) <==>
            |vs| == |keys| && lines == FieldLines(keys, vs) && forall i :: 0 <= i < |vs| ==> ValueFits(vs[i])
  {
    hide ReadField, FieldLine, ValueFits, KeyFits, OneLine, Ascii;
    if keys != [] {
      var n := |keys| - 1;
      ReadLength(keys, lines);
      if |vs| == n + 1 {
        assert FieldLines(keys, vs) == FieldLines(keys[..n], vs[..n]) + [FieldLine(keys[n], vs[n])];
        hide ReadFields, FieldLines;
        ReadSnoc(keys, lines, vs);
        ReadFieldsExact(keys[..n], lines[..n], vs[..n]);
        LastField(keys[n], lines[n], vs[n]);
        Snoc(lines, FieldLines(keys[..n], vs[..n]), FieldLine(keys[n], vs[n]));
        assert vs == vs[..n] + [vs[n]];
      }
    }
  }

  lemma ReadSnoc(keys: seq<string>, lines: seq<string>, vs: seq<string>)
    requires |keys| == |lines| == |vs| > 0
    ensures var n := |keys| - 1;
            ReadFields(keys, lines) == Some(vs) <==>
            ReadFields(keys[..n], lines[..n]) == Some(vs[..n]) && ReadField(keys[n], lines[n]) == Some(vs[n])
  {
    hide ReadField;
    var n := |keys| - 1;
    assert vs == vs[..n] + [vs[n]];
  }

  lemma Snoc(lines: seq<string>, init: seq<string>, last: string)
    requires |lines| == |init| + 1
    ensures lines == init + [last] <==> lines[..|init|] == init && lines[|init|] == last
  {
    assert lines == lines[..|init|] + [lines[|init|]];
  }

  lemma {:induction false} ReadLength(keys: seq<string>, lines: seq<string>)
    requires |keys| == |lines|
    ensures ReadFields(keys, lines).Some? ==> |ReadFields(keys, lines).value| == |keys|
  {
    if keys != [] { ReadLength(keys[..|keys| - 1], lines[..|keys| - 1]); }
  }

  lemma LastField(key: string, line: string, v: string)
    requires KeyFits(key) && Ascii(line) && (line != [] && line[|line| - 1] == '\n' ==> OneLine(line))
    ensures ReadField(key, line) == Some(v) <==> line == FieldLine(key, v) && ValueFits(v)
  {
    if line != [] && line[|line| - 1] == '\n' {
      ReadFieldExact(key, line, v);
    } else {
      assert FieldLine(key, v)[|FieldLine(key, v)| - 1] == '\n';
    }
  }

  // ---------------------------------------------------------------- the whole text

  /** What the parser's scan of the lines accepts. */
  ghost predicate Reads(keys: seq<string>, raw: string, values: seq<string>) {
    var lines := SplitText(raw);
    && |raw| <= MAX_BOOTSTRAP && Ascii(raw) && |lines| == |keys| + 1 && lines[0] == HEADER
    && ReadFields(keys, lines[1..]) == Some(values)
  }

  lemma {:induction false} AsciiPieces(lines: seq<string>)
    ensures Ascii(Concat(lines)) <==> forall i :: 0 <= i < |lines| ==> Ascii(lines[i])
  {
    if lines != [] {
      AsciiPieces(lines[1..]);
      AsciiConcat(lines[0], Concat(lines[1..]));
      assert forall i :: 1 <= i < |lines| ==> lines[i] == lines[1..][i - 1];
    }
  }

  lemma AsciiConcat(a: string, b: string)
    ensures Ascii(a + b) <==> Ascii(a) && Ascii(b)
  {
    if Ascii(a + b) {
      assert forall i :: 0 <= i < |a| ==> a[i] == (a + b)[i];
      assert forall i :: 0 <= i < |b| ==> b[i] == (a + b)[|a| + i];
    }
  }

  lemma HeaderLine()
    ensures OneLine(HEADER) && Ascii(HEADER)
  {
  }

  /** Reading back the lines of a text gives the text. */
  lemma ReadIsPrinted(keys: seq<string>, raw: string, values: seq<string>)
    requires KeysOk(keys) && Reads(keys, raw, values)
    ensures |values| == |keys| && raw == Print(keys, values)
    ensures forall i :: 0 <= i < |values| ==> ValueFits(values[i])
  {
    hide KeysOk, OneLine, Ascii, HEADER, LineLength, ReadFields, FieldLines, ValueFits, SplitText;
    var lines := SplitText(raw);
    SplitLossless(raw);
    AsciiPieces(lines);
    forall i | 0 <= i < |lines[1..]| && lines[1..][i] != [] && lines[1..][i][|lines[1..][i]| - 1] == '\n'
      ensures OneLine(lines[1..][i])
    {
      PiecesAreOneLines(raw, i + 1);
    }
    ReadFieldsExact(keys, lines[1..], values);
  }

  lemma PrintedIsRead(keys: seq<string>, raw: string, values: seq<string>)
    requires KeysOk(keys) && |values| == |keys| && raw == Print(keys, values) && |raw| <= MAX_BOOTSTRAP
    requires forall i :: 0 <= i < |values| ==> ValueFits(values[i])
    ensures Reads(keys, raw, values)
  {
    hide OneLine, Ascii, HEADER, LineLength, ReadFields, ValueFits, SplitText, KeyFits, FieldLine;
    var body := FieldLines(keys, values);
    var lines := [HEADER] + body;
    HeaderLine();
    forall i | 0 <= i < |body| ensures OneLine(body[i]) && Ascii(body[i]) {
      FieldIsOneLine(keys[i], values[i]);
    }
    assert lines[1..] == body;
    SplitOneLines(lines);
    AsciiPieces(lines);
    ReadFieldsExact(keys, body, values);
  }

  lemma ReadsExact(keys: seq<string>, raw: string, dev: int, ino: int, values: seq<string>)
    requires KeysOk(keys)
    ensures Parses(keys, raw, dev, ino, values) <==> Reads(keys, raw, values) && ValuesOk(values, dev, ino)
  {
    hide Reads, Print, KeysOk, ValueFits, ValuesOk;
    if Reads(keys, raw, values) {
      ReadIsPrinted(keys, raw, values);
      ReadsSmall(keys, raw, values);
    }
    if Parses(keys, raw, dev, ino, values) { PrintedIsRead(keys, raw, values); }
  }

  lemma ReadsSmall(keys: seq<string>, raw: string, values: seq<string>)
    requires Reads(keys, raw, values)
    ensures |raw| <= MAX_BOOTSTRAP
  {
  }

  // ---------------------------------------------------------------- the manifest of an authority

  lemma KeysFit()
    ensures KeysOk(BOOTSTRAP_KEYS) && |BOOTSTRAP_KEYS| == 19
  {
    AuthorityWords();
    FileWords();
    TrustWords();
    hide AUTHORITY_KEYS, FILE_KEYS, TRUST_KEYS, KeyFits, Word;
    forall i | 0 <= i < |BOOTSTRAP_KEYS| ensures KeyFits(BOOTSTRAP_KEYS[i]) {
      WordFits(BOOTSTRAP_KEYS[i]);
    }
  }

  predicate Word(k: string) { forall i :: 0 <= i < |k| ==> 'a' <= k[i] <= 'z' || k[i] == '_' }

  predicate Words(ks: seq<string>) { forall i :: 0 <= i < |ks| ==> Word(ks[i]) }

  lemma AuthorityWords()
    ensures Words(AUTHORITY_KEYS) && |AUTHORITY_KEYS| == 9
  {
  }

  lemma FileWords()
    ensures Words(FILE_KEYS) && |FILE_KEYS| == 6
  {
  }

  lemma TrustWords()
    ensures Words(TRUST_KEYS) && |TRUST_KEYS| == 4
  {
  }

  lemma WordFits(k: string)
    requires Word(k)
    ensures KeyFits(k)
  {
  }

  /** The printed text of every integer, in the order of the keys. */
  function Decimals(ns: seq<nat>): (vs: seq<string>)
    ensures |vs| == |ns|
    ensures forall i :: 0 <= i < |ns| ==> vs[i] == Decimal(ns[i])
  {
    if ns == [] then [] else [Decimal(ns[0])] + Decimals(ns[1..])
  }

  function AuthorityValues(host: string, boot: string, endpoint: string, ns: seq<nat>): seq<string> {
    [DOMAIN, host, boot, endpoint] + Decimals(ns)
  }

  lemma DecimalFits(n: nat)
    ensures ValueFits(Decimal(n)) && CanonicalInt(Decimal(n)) && Value(Decimal(n)) == n
  {
    DecimalRoundTrip(n);
  }

  lemma DomainFits()
    ensures ValueFits(DOMAIN)
  {
  }

  /** Every manifest the authority writes is read back as the fields it printed. */
  lemma AuthorityReadsBack(host: string, boot: string, endpoint: string, ns: seq<nat>)
    requires ValueFits(host) && ValueFits(boot) && ValueFits(endpoint)
    requires |ns| == 15 && ns[2] != 0
    requires |Print(BOOTSTRAP_KEYS, AuthorityValues(host, boot, endpoint, ns))| <= 4096
    ensures var vs := AuthorityValues(host, boot, endpoint, ns);
            Parses(BOOTSTRAP_KEYS, Print(BOOTSTRAP_KEYS, vs), ns[3], ns[4], vs)
  {
    hide ValueFits, CanonicalInt, Decimal, Value, Print, BOOTSTRAP_KEYS, DOMAIN;
    KeysFit();
    DomainFits();
    var vs := AuthorityValues(host, boot, endpoint, ns);
    forall i | 0 <= i < |ns|
      ensures ValueFits(vs[i + 4]) && CanonicalInt(vs[i + 4]) && vs[i + 4] == Decimal(ns[i])
    {
      DecimalFits(ns[i]);
    }
    forall i | FIRST_INT <= i < |vs| ensures ValueFits(vs[i]) && CanonicalInt(vs[i]) {
      assert ValueFits(vs[(i - 4) + 4]);
    }
    DecimalFits(ns[2]);
    DecimalFits(ns[3]);
    DecimalFits(ns[4]);
    assert vs[REVISION] == Decimal(ns[2]) && vs[DIR_DEV] == Decimal(ns[3]) && vs[DIR_INO] == Decimal(ns[4]);
  }

  /** A natural number as it is printed: digits, without a leading zero. */
  predicate NumberText(v: string) {
    |v| > 0 && (forall i :: 0 <= i < |v| ==> '0' <= v[i] <= '9') && (v[0] == '0' ==> |v| == 1)
  }

  lemma CanonicalIsNumber(v: string)
    ensures CanonicalInt(v) <==> NumberText(v)
    ensures CanonicalInt(v) ==> forall k: nat :: Value(v) == k <==> v == Decimal(k)
  {
    if v != [] && AllDigits(v) {
      CanonicalDigits(v);
      forall k: nat ensures v == Decimal(k) ==> Value(v) == k { DecimalRoundTrip(k); }
    }
  }

  lemma KeyPlaces()
    ensures BOOTSTRAP_KEYS[0] == "domain" && BOOTSTRAP_KEYS[4] == "owner_limit" && BOOTSTRAP_KEYS[6] == "revision"
    ensures BOOTSTRAP_KEYS[7] == "dir_dev" && BOOTSTRAP_KEYS[8] == "dir_ino"
  {
  }

  /** What an accepted manifest says: the domain of this authority, printed
      numbers from the owner limit on, a revision that is not zero, and the
      identity of the root directory. */
  lemma ManifestSays(values: seq<string>, dev: int, ino: int)
    requires |values| == |BOOTSTRAP_KEYS|
    ensures ValuesOk(values, dev, ino) <==>
            && values[0] == "external-ddr-v0" && (forall i :: 4 <= i < |values| ==> NumberText(values[i]))
            && values[6] != "0" && dev >= 0 && values[7] == Decimal(dev) && ino >= 0 && values[8] == Decimal(ino)
    ensures BOOTSTRAP_KEYS[0] == "domain" && BOOTSTRAP_KEYS[4] == "owner_limit" && BOOTSTRAP_KEYS[6] == "revision"
    ensures BOOTSTRAP_KEYS[7] == "dir_dev" && BOOTSTRAP_KEYS[8] == "dir_ino"
  {
    KeyPlaces();
    hide CanonicalInt, NumberText, Value, Decimal, BOOTSTRAP_KEYS, DOMAIN;
    KeysFit();
    assert DOMAIN == "external-ddr-v0" by { DomainIs(); }
    forall i | 0 <= i < |values|
      ensures CanonicalInt(values[i]) <==> NumberText(values[i])
      ensures CanonicalInt(values[i]) ==> AllDigits(values[i]) && forall k: nat :: Value(values[i]) == k <==> values[i] == Decimal(k)
    {
      CanonicalIsNumber(values[i]);
      CanonicalDigitsOnly(values[i]);
    }
    ZeroText();
  }

  lemma DomainIs()
    ensures DOMAIN == "external-ddr-v0"
  {
  }

  lemma CanonicalDigitsOnly(v: string)
    ensures CanonicalInt(v) ==> AllDigits(v)
  {
  }

  lemma ZeroText()
    ensures Decimal(0) == "0"
  {
  }
}

/** Values exchanged with the outside world: bytes, JSON documents, and the
    three foreign functions the evidence code leans on. */
module Values {

  type byte = x: int | 0 <= x < 256
  type bytes = seq<byte>

  const NL: byte := 10
  const CR: byte := 13

  datatype Option<+T> = None | Some(value: T)

  /** What `json.loads` can return. Objects are classified by their set of
      member names: one constructor for each set the evidence formats use,
      and `Obj` for every other object. `Whole(w)` is a float with no fraction
      (`1.0`), which Python compares equal to the integer `w`. */
  datatype Json =
    | Null
    | Bool(b: bool)
    | Num(n: int)
    | Whole(w: int)
    | Str(s: string)
    | Arr(items: seq<Json>)
    | MaterialObj(schema: Json, seqno: Json, previous: Json, event: Json)
    | FrameObj(schema: Json, seqno: Json, previous: Json, event: Json, checksum: Json)
    | HeadObj(schema: Json, seqno: Json, offset: Json, checksum: Json)
    | BirthObj(pid: Json, uid: Json, gid: Json, pidnsDev: Json, pidnsIno: Json, startTicks: Json)
    | StartObj(kind: Json, runId: Json, bootId: Json, witnessBirth: Json, code: Json, interpreter: Json)
    | BrokerStartObj(kind: Json, runId: Json, broker: Json, bootId: Json, witnessBirth: Json, code: Json, interpreter: Json)
    | ChildBirthObj(kind: Json, runId: Json, launchId: Json, bootId: Json, role: Json, birth: Json,
                    executable: Json, argv: Json, pidfdOpened: Json)
    | ChildWaitObj(kind: Json, runId: Json, launchId: Json, bootId: Json, role: Json, birth: Json,
                   rawStatus: Json, normalZero: Json)
    | NoBackingObj(kind: Json, runId: Json, bootId: Json, dev: Json, ino: Json)
    | ObservedObj(kind: Json, runId: Json, bootId: Json, launchId: Json, role: Json, birth: Json,
                  dev: Json, ino: Json, fdObserved: Json, mappingObserved: Json)
    | SealObj(kind: Json, runId: Json, children: Json, allNormalZero: Json)
    | BindingObj(schema: Json, runId: Json, host: Json, domain: Json, boot: Json, capRevision: Json,
                 brokerInstance: Json, lifecycleEpoch: Json, brokerJournal: Json, brokerHead: Json,
                 initialHead: Json, witnessBirth: Json, code: Json, codePath: Json,
                 interpreterPath: Json, interpreter: Json, pinPath: Json, pin: Json,
                 childPath: Json, child: Json, sealedHead: Json, evidenceDir: Json,
                 evidenceJournal: Json, evidenceHead: Json)
    | Obj(members: map<string, Json>)

  /** Python's `value == k` for an integer `k`: booleans and whole floats
      compare equal to integers. */
  predicate PyEqInt(v: Json, k: int) {
    match v
    case Num(n) => n == k
    case Whole(w) => w == k
    case Bool(b) => (if b then 1 else 0) == k
    case _ => false
  }

  /** A value with every number written as an integer. */
  function Plain(v: Json): Json {
    match v
    case Bool(b) => Num(if b then 1 else 0)
    case Whole(w) => Num(w)
    case Arr(items) => Arr(PlainAll(items))
    case MaterialObj(a, b, c, d) => MaterialObj(Plain(a), Plain(b), Plain(c), Plain(d))
    case FrameObj(a, b, c, d, e) => FrameObj(Plain(a), Plain(b), Plain(c), Plain(d), Plain(e))
    case HeadObj(a, b, c, d) => HeadObj(Plain(a), Plain(b), Plain(c), Plain(d))
    case BirthObj(a, b, c, d, e, f) => BirthObj(Plain(a), Plain(b), Plain(c), Plain(d), Plain(e), Plain(f))
    case StartObj(a, b, c, d, e, f) => StartObj(Plain(a), Plain(b), Plain(c), Plain(d), Plain(e), Plain(f))
    case BrokerStartObj(a, b, c, d, e, f, g) =>
      BrokerStartObj(Plain(a), Plain(b), Plain(c), Plain(d), Plain(e), Plain(f), Plain(g))
    case ChildBirthObj(a, b, c, d, e, f, g, h, i) =>
      ChildBirthObj(Plain(a), Plain(b), Plain(c), Plain(d), Plain(e), Plain(f), Plain(g), Plain(h), Plain(i))
    case ChildWaitObj(a, b, c, d, e, f, g, h) =>
      ChildWaitObj(Plain(a), Plain(b), Plain(c), Plain(d), Plain(e), Plain(f), Plain(g), Plain(h))
    case NoBackingObj(a, b, c, d, e) => NoBackingObj(Plain(a), Plain(b), Plain(c), Plain(d), Plain(e))
    case ObservedObj(a, b, c, d, e, f, g, h, i, j) =>
      ObservedObj(Plain(a), Plain(b), Plain(c), Plain(d), Plain(e), Plain(f), Plain(g), Plain(h), Plain(i), Plain(j))
    case SealObj(a, b, c, d) => SealObj(Plain(a), Plain(b), Plain(c), Plain(d))
    case BindingObj(a, b, c, d, e, f, g, h, i, j, k, l, m, n, o, p, q, r, s, t, u, w, x, y) =>
      BindingObj(Plain(a), Plain(b), Plain(c), Plain(d), Plain(e), Plain(f), Plain(g), Plain(h), Plain(i), Plain(j),
                 Plain(k), Plain(l), Plain(m), Plain(n), Plain(o), Plain(p), Plain(q), Plain(r), Plain(s), Plain(t),
                 Plain(u), Plain(w), Plain(x), Plain(y))
    case Obj(members) => Obj(map name | name in members :: Plain(members[name]))
    case _ => v
  }

  function PlainAll(items: seq<Json>): seq<Json> {
    if items == [] then [] else [Plain(items[0])] + PlainAll(items[1..])
  }

  /** Python's `==` between two JSON values: numbers compare by value. */
  predicate PyEq(v: Json, w: Json) { Plain(v) == Plain(w) }

  /** `dumps` is canonical JSON printing, `loads` is JSON parsing (None is an
      exception), `sha256` is the hex digest. */
  datatype Codec = Codec(dumps: Json -> bytes, loads: bytes -> Option<Json>, sha256: bytes -> string) {

    /** Parsing a printed line gives the value back, and printing never emits
        a raw line break. Of the length of a digest only a lower bound is
        assumed, which can stand beside the absence of collisions. */
    ghost predicate Valid() {
      && (forall v: Json :: loads(Line(v)) == Some(v))
      && (forall v: Json, i :: 0 <= i < |dumps(v)| ==> dumps(v)[i] != NL && dumps(v)[i] != CR)
      && (forall d: bytes :: |sha256(d)| >= 64)
    }

    ghost predicate CollisionFree() {
      forall a: bytes, b: bytes :: sha256(a) == sha256(b) ==> a == b
    }

    /** One printed line. */
    function Line(v: Json): bytes { dumps(v) + [NL] }

    lemma LineInjective(v: Json, w: Json)
      requires Valid()
      requires Line(v) == Line(w)
      ensures v == w
    {
      assert loads(Line(v)) == Some(v);
    }

    lemma DumpsInjective(v: Json, w: Json)
      requires Valid()
      requires dumps(v) == dumps(w)
      ensures v == w
    {
      LineInjective(v, w);
    }

    /** A line that was cut short is not a line. */
    lemma TornLine(v: Json, w: Json, k: nat)
      requires Valid()
      requires k < |Line(v)|
      ensures Line(v)[..k] != Line(w)
    {
      assert Line(v)[..k] == dumps(v)[..k];
      assert Line(w)[|dumps(w)|] == NL;
      assert NL in Line(w) && NL !in dumps(v)[..k];
    }
  }
}

/**
 * The self-describing value stream the schema codec reads and writes.
 *
 * The byte-level MessagePack framing is abstracted to a tree of values. A map
 * carries the length its header DECLARES next to the entries that actually
 * follow it in the stream, so that the encoder's counting pass and a stream
 * that ends before the declared number of entries can both be stated.
 */
module Wire {

  datatype Wire =
    | WStr(s: string)
    | WInt(i: int)
    | WBool(b: bool)
    | WArr(items: seq<Wire>)
    | WMap(length: nat, entries: seq<Entry>)

  /** One key/value pair of a map; keys are read as strings, so other kinds are a type error. */
  datatype Entry = Entry(key: Wire, value: Wire)

  /** The kinds of wire value a reader can ask for. */
  datatype Kind = StringKind | IntKind | BoolKind | ArrayKind | MapKind

  datatype DecodeError =
    | TypeMismatch(expected: Kind)  // the next value is not of the kind asked for
    | Truncated                     // the stream ends before a map's declared length is satisfied

  datatype Result<T> = Ok(value: T) | Err(error: DecodeError) {
    predicate IsFailure() { Err? }

    function PropagateFailure<U>(): Result<U>
      requires Err?
    {
      Err(error)
    }

    function Extract(): T
      requires Ok?
    {
      value
    }
  }

  /** The entry `key: value` with a string key, as the encoders write them. */
  function Attr(key: string, value: Wire): Entry {
    Entry(WStr(key), value)
  }

  /** A map whose declared length is exactly the number of entries that follow it. */
  function Frame(entries: seq<Entry>): Wire {
    WMap(|entries|, entries)
  }

  /** True when some entry of `es` has the string key `key`. */
  predicate HasAttr(es: seq<Entry>, key: string) {
    exists e | e in es :: e.key == WStr(key)
  }

  lemma HasAttrAppend(a: seq<Entry>, b: seq<Entry>, key: string)
    ensures HasAttr(a + b, key) <==> HasAttr(a, key) || HasAttr(b, key)
  {
    if HasAttr(a + b, key) {
      var e :| e in a + b && e.key == WStr(key);
      assert e in a || e in b;
    }
    if HasAttr(a, key) {
      var e :| e in a && e.key == WStr(key);
      assert e in a + b;
    }
    if HasAttr(b, key) {
      var e :| e in b && e.key == WStr(key);
      assert e in a + b;
    }
  }

  // ---------------------------------------------------------------------------
  // Scalar reads: the stream's typed `next<T>()`.

  function AsString(w: Wire): Result<string> {
    if w.WStr? then Ok(w.s) else Err(TypeMismatch(StringKind))
  }

  function AsInt(w: Wire): Result<int> {
    if w.WInt? then Ok(w.i) else Err(TypeMismatch(IntKind))
  }

  function AsBool(w: Wire): Result<bool> {
    if w.WBool? then Ok(w.b) else Err(TypeMismatch(BoolKind))
  }

  // ---------------------------------------------------------------------------
  // Sequences: the generic vector packer and unpacker. Every element is decoded
  // on its own, into a fresh default value chosen by `decode`.

  function EncodeArray<T>(xs: seq<T>, encode: T -> Wire): Wire {
    WArr(seq(|xs|, i requires 0 <= i < |xs| => encode(xs[i])))
  }

  function DecodeItems<T>(items: seq<Wire>, decode: Wire -> Result<T>): Result<seq<T>>
    decreases |items|
  {
    if items == [] then Ok([])
    else
      var front :- DecodeItems(items[..|items| - 1], decode);
      var last :- decode(items[|items| - 1]);
      Ok(front + [last])
  }

  function DecodeArray<T>(w: Wire, decode: Wire -> Result<T>): Result<seq<T>> {
    if w.WArr? then DecodeItems(w.items, decode) else Err(TypeMismatch(ArrayKind))
  }

  function StringToWire(s: string): Wire {
    WStr(s)
  }

  function EncodeStrings(xs: seq<string>): Wire {
    EncodeArray(xs, StringToWire)
  }

  function DecodeStrings(w: Wire): Result<seq<string>> {
    DecodeArray(w, AsString)
  }

  /** A sequence round-trips when each of its elements does. */
  lemma {:induction false} ArrayRoundTrip<T>(xs: seq<T>, encode: T -> Wire, decode: Wire -> Result<T>)
    requires forall x | x in xs :: decode(encode(x)) == Ok(x)
    ensures DecodeArray(EncodeArray(xs, encode), decode) == Ok(xs)
    decreases |xs|
  {
    if xs != [] {
      var front := xs[..|xs| - 1];
      ArrayRoundTrip(front, encode, decode);
      var items := EncodeArray(xs, encode).items;
      assert items[..|items| - 1] == EncodeArray(front, encode).items;
      assert xs == front + [xs[|xs| - 1]];
    }
  }

  lemma StringsRoundTrip(xs: seq<string>)
    ensures DecodeStrings(EncodeStrings(xs)) == Ok(xs)
  {
    ArrayRoundTrip(xs, StringToWire, AsString);
  }

  // ---------------------------------------------------------------------------
  // Maps: the `while (map_length--)` loop of every decoder, as a left fold of a
  // per-entry step over the destination.

  /** Applies `step` to the entries of `es` in stream order; the first failure stops it. */
  function Fold<S>(step: (S, Entry) -> Result<S>, start: S, es: seq<Entry>): Result<S>
    decreases |es|
  {
    if es == [] then Ok(start)
    else
      var s :- Fold(step, start, es[..|es| - 1]);
      step(s, es[|es| - 1])
  }

  /**
   * Reads a map: a non-map is a type error; the first `length` entries are
   * folded into `start`; if fewer follow, the fold runs to the end of the
   * stream and then fails as truncated.
   */
  function DecodeMap<S>(w: Wire, step: (S, Entry) -> Result<S>, start: S): Result<S> {
    match w
    case WMap(n, es) =>
      if n <= |es| then Fold(step, start, es[..n])
      else
        var s :- Fold(step, start, es);
        Err(Truncated)
    case _ => Err(TypeMismatch(MapKind))
  }

  /** Folding a concatenation folds the second part from the state the first part left. */
  lemma {:induction false} FoldAppend<S>(step: (S, Entry) -> Result<S>, start: S, a: seq<Entry>, b: seq<Entry>)
    ensures Fold(step, start, a + b) ==
            match Fold(step, start, a)
            case Ok(s) => Fold(step, s, b)
            case Err(e) => Err(e)
    decreases |b|
  {
    if b == [] {
      assert a + b == a;
    } else {
      var b' := b[..|b| - 1];
      assert (a + b)[..|a + b| - 1] == a + b';
      FoldAppend(step, start, a, b');
    }
  }

  /** Folds compose: folding `a + b` from `s` is folding `b` from where `a` left off. */
  lemma FoldThen<S>(step: (S, Entry) -> Result<S>, s: S, a: seq<Entry>, t: S, b: seq<Entry>, u: S)
    requires Fold(step, s, a) == Ok(t)
    requires Fold(step, t, b) == Ok(u)
    ensures Fold(step, s, a + b) == Ok(u)
  {
    FoldAppend(step, s, a, b);
  }

  /** Folding a single entry is one step. */
  lemma FoldSingle<S>(step: (S, Entry) -> Result<S>, s: S, e: Entry)
    ensures Fold(step, s, [e]) == step(s, e)
  {
    assert [e][..0] == [];
  }

  /** One more entry of a prefix is one more step. */
  lemma FoldExtend<S>(step: (S, Entry) -> Result<S>, start: S, es: seq<Entry>, i: nat)
    requires i < |es|
    ensures Fold(step, start, es[..i + 1]) ==
            match Fold(step, start, es[..i])
            case Ok(s) => step(s, es[i])
            case Err(e) => Err(e)
  {
    assert es[..i + 1][..i] == es[..i];
  }

  /** Anything but a map is a type error. */
  lemma NonMapFails<S>(w: Wire, step: (S, Entry) -> Result<S>, start: S)
    requires !w.WMap?
    ensures DecodeMap(w, step, start) == Err(TypeMismatch(MapKind))
  {
  }

  /**
   * A map followed by fewer entries than its header declares fails: as
   * truncated once every entry that is there has been read, or with the first
   * error among them.
   */
  lemma TruncatedMapFails<S>(w: Wire, step: (S, Entry) -> Result<S>, start: S)
    requires w.WMap? && w.length > |w.entries|
    ensures DecodeMap(w, step, start).Err?
    ensures Fold(step, start, w.entries).Ok? ==> DecodeMap(w, step, start) == Err(Truncated)
    ensures Fold(step, start, w.entries).Err? ==> DecodeMap(w, step, start) == Fold(step, start, w.entries)
  {
  }

  /** Once an entry's step fails, the whole map fails with that error. */
  lemma DecodeMapStopsAtError<S>(w: Wire, step: (S, Entry) -> Result<S>, start: S, i: nat, s: S)
    requires w.WMap? && i < w.length && i < |w.entries|
    requires Fold(step, start, w.entries[..i]) == Ok(s)
    ensures step(s, w.entries[i]).Err? ==> DecodeMap(w, step, start) == step(s, w.entries[i])
  {
    var es := w.entries;
    FoldExtend(step, start, es, i);
    if w.length <= |es| {
      assert es[..w.length] == es[..i + 1] + es[i + 1..w.length];
      FoldAppend(step, start, es[..i + 1], es[i + 1..w.length]);
    } else {
      assert es == es[..i + 1] + es[i + 1..];
      FoldAppend(step, start, es[..i + 1], es[i + 1..]);
    }
  }

  /** An entry that leaves every state unchanged can be dropped from a fold. */
  lemma FoldSkipsIgnored<S>(step: (S, Entry) -> Result<S>, start: S, a: seq<Entry>, u: Entry, b: seq<Entry>)
    requires forall s :: step(s, u) == Ok(s)
    ensures Fold(step, start, a + [u] + b) == Fold(step, start, a + b)
  {
    FoldAppend(step, start, a + [u], b);
    FoldAppend(step, start, a, [u]);
    FoldAppend(step, start, a, b);
    assert [u][..0] == [];
  }

  /**
   * Inserting such an entry anywhere within a map's declared entries, and
   * counting it in the declared length, does not change what is decoded.
   */
  lemma {:induction false} DecodeMapSkipsIgnored<S>(step: (S, Entry) -> Result<S>, start: S,
                                                   n: nat, a: seq<Entry>, u: Entry, b: seq<Entry>)
    requires |a| <= n
    requires forall s :: step(s, u) == Ok(s)
    ensures DecodeMap(WMap(n + 1, a + [u] + b), step, start) == DecodeMap(WMap(n, a + b), step, start)
  {
    if n <= |a| + |b| {
      var b' := b[..n - |a|];
      assert (a + [u] + b)[..n + 1] == a + [u] + b';
      assert (a + b)[..n] == a + b';
      FoldSkipsIgnored(step, start, a, u, b');
    } else {
      FoldSkipsIgnored(step, start, a, u, b);
    }
  }

  /** A state property that every entry of `b` keeps holds after folding `b`. */
  lemma {:induction false} FoldPreserves<S>(step: (S, Entry) -> Result<S>, P: S -> bool, start: S, b: seq<Entry>)
    requires P(start)
    requires forall s, e | e in b && P(s) && step(s, e).Ok? :: P(step(s, e).value)
    ensures Fold(step, start, b).Ok? ==> P(Fold(step, start, b).value)
    decreases |b|
  {
    if b != [] {
      var front := b[..|b| - 1];
      assert forall e | e in front :: e in b;
      FoldPreserves(step, P, start, front);
    }
  }
}

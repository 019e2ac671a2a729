/**
 * Parsed JSON documents as both the Python server and the browser see them.
 * Numbers are integers; an object is the list of its members in insertion
 * order, which is the order Python dicts enumerate. (JavaScript enumerates
 * integer-like keys first, in ascending order; the model does not.)
 */
module JsonValues {
  import opened Wrappers

  datatype Json =
    | Null
    | Bool(b: bool)
    | Num(n: int)
    | Str(s: string)
    | Arr(elems: seq<Json>)
    | Obj(members: seq<Member>)

  type Member = (string, Json)

  function Keys(ms: seq<Member>): seq<string>
  {
    seq(|ms|, i requires 0 <= i < |ms| => ms[i].0)
  }

  /** No key occurs twice: every dict and every JavaScript object has this shape. */
  predicate DistinctKeys(ms: seq<Member>)
  {
    forall i, j :: 0 <= i < j < |ms| ==> ms[i].0 != ms[j].0
  }

  /** Every object anywhere in the document has distinct keys. */
  predicate WellFormed(j: Json)
  {
    match j
    case Arr(es) => forall i :: 0 <= i < |es| ==> WellFormed(es[i])
    case Obj(ms) => DistinctKeys(ms) && forall i :: 0 <= i < |ms| ==> WellFormed(ms[i].1)
    case _ => true
  }

  /** Position of the member named `k`, the first one if several. */
  function IndexOf(ms: seq<Member>, k: string): (r: Option<nat>)
    ensures r.Some? ==> r.value < |ms| && ms[r.value].0 == k
    ensures r.Some? ==> forall j :: 0 <= j < r.value ==> ms[j].0 != k
    ensures r.None? <==> forall j :: 0 <= j < |ms| ==> ms[j].0 != k
  {
    if ms == [] then None
    else if ms[0].0 == k then Some(0)
    else match IndexOf(ms[1..], k)
      case None => None
      case Some(i) => Some(i + 1)
  }

  /** Python `d.get(k)` / JavaScript `o[k]`: the value stored under `k`, if any. */
  function Lookup(ms: seq<Member>, k: string): Option<Json>
  {
    match IndexOf(ms, k)
    case None => None
    case Some(i) => Some(ms[i].1)
  }

  predicate HasKey(ms: seq<Member>, k: string)
  {
    IndexOf(ms, k).Some?
  }

  /**
   * Python `d[k] = v` (and JavaScript `o[k] = v` for keys other than
   * `__proto__`): an existing key keeps its position and takes the new value,
   * a new key is appended.
   */
  function Assign(ms: seq<Member>, k: string, v: Json): (r: seq<Member>)
    ensures Lookup(r, k) == Some(v)
    ensures forall k' :: k' != k ==> Lookup(r, k') == Lookup(ms, k')
    ensures Keys(r) == if HasKey(ms, k) then Keys(ms) else Keys(ms) + [k]
    ensures DistinctKeys(ms) ==> DistinctKeys(r)
  {
    match IndexOf(ms, k)
    case Some(i) => OverwriteFacts(ms, k, v, i); ms[i := (k, v)]
    case None => AppendFacts(ms, k, v); ms + [(k, v)]
  }

  lemma OverwriteFacts(ms: seq<Member>, k: string, v: Json, i: nat)
    requires IndexOf(ms, k) == Some(i)
    ensures var r := ms[i := (k, v)];
      && Lookup(r, k) == Some(v)
      && (forall k' :: k' != k ==> Lookup(r, k') == Lookup(ms, k'))
      && Keys(r) == Keys(ms)
      && (DistinctKeys(ms) ==> DistinctKeys(r))
  {
    var r := ms[i := (k, v)];
    FirstIndex(r, k, i);
    forall k' | k' != k ensures Lookup(r, k') == Lookup(ms, k') {
      SameKeysSameIndex(ms, r, k');
    }
  }

  lemma AppendFacts(ms: seq<Member>, k: string, v: Json)
    requires IndexOf(ms, k).None?
    ensures var r := ms + [(k, v)];
      && Lookup(r, k) == Some(v)
      && (forall k' :: k' != k ==> Lookup(r, k') == Lookup(ms, k'))
      && Keys(r) == Keys(ms) + [k]
      && (DistinctKeys(ms) ==> DistinctKeys(r))
  {
    var r := ms + [(k, v)];
    FirstIndex(r, k, |ms|);
    forall k' | k' != k ensures Lookup(r, k') == Lookup(ms, k') {
      match IndexOf(ms, k')
      case None => assert IndexOf(r, k').None?;
      case Some(i) => FirstIndex(r, k', i);
    }
  }

  /** Python `d.update(ps)`: assign the pairs of `ps` one after another. */
  function UpdateWith(d: seq<Member>, ps: seq<Member>): seq<Member>
    decreases |ps|
  {
    if ps == [] then d
    else
      var last := ps[|ps| - 1];
      Assign(UpdateWith(d, ps[..|ps| - 1]), last.0, last.1)
  }

  /** Python truthiness of a JSON value: null, false, 0, "", [] and {} are false. */
  predicate Truthy(j: Json)
  {
    match j
    case Null => false
    case Bool(b) => b
    case Num(n) => n != 0
    case Str(s) => s != ""
    case Arr(es) => es != []
    case Obj(ms) => ms != []
  }

  // ---------------------------------------------------------------------------
  // Lemmas about dict assignment

  /** An index with key `k` and no earlier `k` is what IndexOf finds. */
  lemma FirstIndex(ms: seq<Member>, k: string, i: nat)
    requires i < |ms| && ms[i].0 == k
    requires forall j :: 0 <= j < i ==> ms[j].0 != k
    ensures IndexOf(ms, k) == Some(i)
  {
    match IndexOf(ms, k)
    case None =>
    case Some(x) => assert !(x < i) && !(i < x);
  }

  lemma SameKeysSameIndex(ms: seq<Member>, ms': seq<Member>, k: string)
    requires Keys(ms) == Keys(ms')
    ensures IndexOf(ms, k) == IndexOf(ms', k)
  {
    assert |ms| == |Keys(ms)| == |ms'|;
    assert forall j :: 0 <= j < |ms| ==> ms[j].0 == Keys(ms)[j] == ms'[j].0;
    match IndexOf(ms, k)
    case None =>
    case Some(i) => FirstIndex(ms', k, i);
  }

  /** With distinct keys, the member at position i is what Lookup finds under its key. */
  lemma LookupAt(ms: seq<Member>, i: nat)
    requires DistinctKeys(ms) && i < |ms|
    ensures Lookup(ms, ms[i].0) == Some(ms[i].1)
  {
    FirstIndex(ms, ms[i].0, i);
  }

  /** Updating an empty dict with distinct-key pairs yields exactly those pairs, in order. */
  lemma {:induction false} UpdateEmpty(ps: seq<Member>)
    requires DistinctKeys(ps)
    ensures UpdateWith([], ps) == ps
  {
    if ps != [] {
      var init, last := ps[..|ps| - 1], ps[|ps| - 1];
      UpdateEmpty(init);
      assert !HasKey(init, last.0);
      assert init + [last] == ps;
    }
  }

  /** The keys already present keep their places at the front. */
  lemma {:induction false} UpdateKeys(d: seq<Member>, ps: seq<Member>)
    ensures Keys(d) <= Keys(UpdateWith(d, ps))
    decreases |ps|
  {
    if ps != [] {
      var init, last := ps[..|ps| - 1], ps[|ps| - 1];
      UpdateKeys(d, init);
      assert UpdateWith(d, ps) == Assign(UpdateWith(d, init), last.0, last.1);
    }
  }

  /**
   * After `d.update(ps)` with distinct keys, a key of `ps` holds the value `ps`
   * gives it (it overrides `d`); any other key keeps its value from `d`.
   */
  lemma {:induction false} UpdateLookup(d: seq<Member>, ps: seq<Member>, k: string)
    requires DistinctKeys(ps)
    ensures Lookup(UpdateWith(d, ps), k) == if HasKey(ps, k) then Lookup(ps, k) else Lookup(d, k)
    decreases |ps|
  {
    if ps != [] {
      var init, last := ps[..|ps| - 1], ps[|ps| - 1];
      assert ps == init + [last];
      var u := UpdateWith(d, init);
      assert UpdateWith(d, ps) == Assign(u, last.0, last.1);
      if k == last.0 {
        FirstIndex(ps, k, |ps| - 1);
      } else {
        UpdateLookup(d, init, k);
        OtherKeyOfAppend(init, last, k);
      }
    }
  }

  /** Appending a member does not change what is found under a different key. */
  lemma OtherKeyOfAppend(init: seq<Member>, last: Member, k: string)
    requires k != last.0
    ensures HasKey(init + [last], k) == HasKey(init, k)
    ensures Lookup(init + [last], k) == Lookup(init, k)
  {
    var ps := init + [last];
    match IndexOf(init, k)
    case None =>
      assert IndexOf(ps, k).None?;
    case Some(i) =>
      FirstIndex(ps, k, i);
  }

  /** `update` keeps keys distinct. */
  lemma {:induction false} UpdateDistinct(d: seq<Member>, ps: seq<Member>)
    requires DistinctKeys(d)
    ensures DistinctKeys(UpdateWith(d, ps))
    decreases |ps|
  {
    if ps != [] {
      UpdateDistinct(d, ps[..|ps| - 1]);
    }
  }
}

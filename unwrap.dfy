/**
 * The server's unwrapper for the extraction API's `{type, value}` envelopes
 * (`extract_value` in app.py).
 */
module ValueUnwrap {
  import opened Wrappers
  import opened JsonValues

  /** A truthy dict holding both a `type` and a `value` member. */
  predicate IsTagged(j: Json)
  {
    j.Obj? && Truthy(j) && HasKey(j.members, "type") && HasKey(j.members, "value")
  }

  /** The member `k` of a tagged node. */
  function Field(j: Json, k: string): Json
    requires j.Obj? && HasKey(j.members, k)
  {
    j.members[IndexOf(j.members, k).value].1
  }

  /** `{"type": t, "value": v}`, the envelope the extraction API sends. */
  function Tagged(t: string, v: Json): (r: Json)
    ensures IsTagged(r) && Field(r, "type") == Str(t) && Field(r, "value") == v
  {
    assert IndexOf([("value", v)], "value") == Some(0);
    Obj([("type", Str(t)), ("value", v)])
  }

  /**
   * Collapse tagged nodes: an `array` node with a list value becomes the list
   * of its unwrapped elements, an `object` node with a dict value becomes the
   * dict of its unwrapped members (filled key by key), any other tagged node
   * becomes its bare `value`, and anything untagged is returned as it is.
   */
  function ExtractValue(j: Json): Json
  {
    if !IsTagged(j) then j
    else
      var ms := j.members;
      var t := ms[IndexOf(ms, "type").value].1;
      var v := ms[IndexOf(ms, "value").value].1;
      if t == Str("array") && v.Arr? then
        Arr(seq(|v.elems|, i requires 0 <= i < |v.elems| => ExtractValue(v.elems[i])))
      else if t == Str("object") && v.Obj? then
        Obj(UpdateWith([], seq(|v.members|, i requires 0 <= i < |v.members| =>
          (v.members[i].0, ExtractValue(v.members[i].1)))))
      else v
  }

  /** Anything that is not a tagged dict comes back unchanged. */
  lemma UntaggedUnchanged(j: Json)
    requires !IsTagged(j)
    ensures ExtractValue(j) == j
  {
  }

  /** An `array` node with a list value: same length and order, element i unwrapped from element i. */
  lemma ArrayNode(j: Json)
    requires IsTagged(j) && Field(j, "type") == Str("array") && Field(j, "value").Arr?
    ensures var es := Field(j, "value").elems;
      && ExtractValue(j).Arr?
      && |ExtractValue(j).elems| == |es|
      && forall i :: 0 <= i < |es| ==> ExtractValue(j).elems[i] == ExtractValue(es[i])
  {
  }

  /**
   * An `object` node with a dict value: exactly the same keys in the same
   * order, each value unwrapped.
   */
  lemma ObjectNode(j: Json)
    requires IsTagged(j) && Field(j, "type") == Str("object") && Field(j, "value").Obj?
    requires DistinctKeys(Field(j, "value").members)
    ensures var ms := Field(j, "value").members;
      && ExtractValue(j).Obj?
      && Keys(ExtractValue(j).members) == Keys(ms)
      && forall i :: 0 <= i < |ms| ==> ExtractValue(j).members[i].1 == ExtractValue(ms[i].1)
  {
    var ms := Field(j, "value").members;
    var ps := seq(|ms|, i requires 0 <= i < |ms| => (ms[i].0, ExtractValue(ms[i].1)));
    assert Keys(ps) == Keys(ms);
    UpdateEmpty(ps);
  }

  /**
   * Any other tagged node (an unknown type, or `array`/`object` whose value
   * has the wrong shape) yields its value verbatim, without recursing into it.
   */
  lemma OtherNode(j: Json)
    requires IsTagged(j)
    requires !(Field(j, "type") == Str("array") && Field(j, "value").Arr?)
    requires !(Field(j, "type") == Str("object") && Field(j, "value").Obj?)
    ensures ExtractValue(j) == Field(j, "value")
  {
  }

  /** Unwrapping keeps every object's keys distinct. */
  lemma {:induction false} WellFormedPreserved(j: Json)
    requires WellFormed(j)
    ensures WellFormed(ExtractValue(j))
  {
    if IsTagged(j) {
      var ms := j.members;
      var v := ms[IndexOf(ms, "value").value].1;
      assert WellFormed(v);
      var t := ms[IndexOf(ms, "type").value].1;
      if t == Str("array") && v.Arr? {
        forall i | 0 <= i < |v.elems| ensures WellFormed(ExtractValue(v.elems[i])) {
          WellFormedPreserved(v.elems[i]);
        }
      } else if t == Str("object") && v.Obj? {
        var ps := seq(|v.members|, i requires 0 <= i < |v.members| =>
          (v.members[i].0, ExtractValue(v.members[i].1)));
        assert Keys(ps) == Keys(v.members);
        UpdateEmpty(ps);
        forall i | 0 <= i < |ps| ensures WellFormed(ps[i].1) {
          WellFormedPreserved(v.members[i].1);
        }
      }
    }
  }

  /**
   * A full wrapping of a plain document: every value wrapped in an
   * envelope, lists under `array`, dicts under `object`, scalars under their
   * own type name.
   */
  function Wrap(x: Json): (w: Json)
    ensures IsTagged(w)
  {
    match x
    case Null => Tagged("null", Null)
    case Bool(_) => Tagged("boolean", x)
    case Num(_) => Tagged("number", x)
    case Str(_) => Tagged("string", x)
    case Arr(es) => Tagged("array", Arr(seq(|es|, i requires 0 <= i < |es| => Wrap(es[i]))))
    case Obj(ms) => Tagged("object", Obj(seq(|ms|, i requires 0 <= i < |ms| => (ms[i].0, Wrap(ms[i].1)))))
  }

  /** Unwrapping undoes the full wrapping of any well-formed document. */
  lemma {:induction false} ExtractWrapped(x: Json)
    requires WellFormed(x)
    ensures ExtractValue(Wrap(x)) == x
  {
    var w := Wrap(x);
    assert IndexOf(w.members, "type") == Some(0);
    assert IndexOf(w.members, "value") == Some(1);
    match x
    case Arr(es) =>
      forall i | 0 <= i < |es| ensures ExtractValue(Wrap(es[i])) == es[i] {
        ExtractWrapped(es[i]);
      }
    case Obj(ms) =>
      var wms := seq(|ms|, i requires 0 <= i < |ms| => (ms[i].0, Wrap(ms[i].1)));
      var ps := seq(|wms|, i requires 0 <= i < |wms| => (wms[i].0, ExtractValue(wms[i].1)));
      forall i | 0 <= i < |ms| ensures ps[i] == ms[i] {
        ExtractWrapped(ms[i].1);
      }
      assert ps == ms;
      UpdateEmpty(ms);
    case _ =>
  }
}

/**
 * The browser side (static/js/script.js): its own unwrapper `extractValue`,
 * the simple/array split of `formatResults` and the PKCE helper
 * `base64urlencode`.
 */
module Browser {
  import opened Wrappers
  import opened JsonValues
  import Text
  import ValueUnwrap

  // ---------------------------------------------------------------------------
  // extractValue

  /**
   * `obj && typeof obj === 'object' && 'type' in obj && 'value' in obj`. A
   * parsed array never has those keys and every object is truthy, so only an
   * object with both members qualifies.
   */
  predicate IsTaggedObject(j: Json)
  {
    j.Obj? && HasKey(j.members, "type") && HasKey(j.members, "value")
  }

  /** Pairs each key with the value at the same position. */
  function Zip(ks: seq<string>, vs: seq<Json>): (r: seq<Member>)
    requires |ks| == |vs|
    ensures Keys(r) == ks && forall i :: 0 <= i < |r| ==> r[i].1 == vs[i]
  {
    seq(|ks|, i requires 0 <= i < |ks| => (ks[i], vs[i]))
  }

  /** The keys `Object.entries` gives an array: "0", "1", ... */
  function IndexKeys(n: nat): (ks: seq<string>)
    ensures |ks| == n && forall i :: 0 <= i < n ==> ks[i] == Text.NatToString(i)
  {
    seq(n, i requires 0 <= i < n => Text.NatToString(i))
  }

  /**
   * The browser twin of the server's unwrapper. None stands for the TypeError
   * that `Object.entries(null)` throws for an `object` node whose value is
   * null; it propagates out of every enclosing call.
   */
  function ExtractValue(j: Json): Option<Json>
    decreases j, 2
  {
    if !IsTaggedObject(j) then Some(j)
    else
      var ms := j.members;
      ExtractNode(ms[IndexOf(ms, "type").value].1, ms[IndexOf(ms, "value").value].1)
  }

  /** The branch on a tagged node's `type` and `value`. */
  function ExtractNode(t: Json, v: Json): Option<Json>
    decreases v, 1
  {
    if t == Str("array") && v.Arr? then
      match ExtractEach(v, 0)
      case Some(xs) => Some(Arr(xs))
      case None => None
    else if t == Str("object") && v.Obj? then
      match ExtractMembers(v, 0)
      case Some(ps) => Some(Obj(UpdateWith([], ps)))
      case None => None
    else if t == Str("object") && v.Arr? then
      match ExtractEach(v, 0)
      case Some(xs) => Some(Obj(UpdateWith([], Zip(IndexKeys(|xs|), xs))))
      case None => None
    else if t == Str("object") && v.Null? then
      None
    else
      Some(v)
  }

  /**
   * The members of object `v` from position `from` on, each value unwrapped,
   * or None when one of the calls throws.
   */
  function ExtractMembers(v: Json, from: nat): (r: Option<seq<Member>>)
    requires v.Obj? && from <= |v.members|
    decreases v, 0, |v.members| - from
    ensures var ms := v.members[from..];
      && (r.Some? <==> forall i :: 0 <= i < |ms| ==> ExtractValue(ms[i].1).Some?)
      && (r.Some? ==> |r.value| == |ms|)
      && (r.Some? ==> forall i :: 0 <= i < |ms| ==> r.value[i].0 == ms[i].0)
      && (r.Some? ==> forall i :: 0 <= i < |ms| ==> ExtractValue(ms[i].1) == Some(r.value[i].1))
  {
    if from == |v.members| then Some([])
    else match (ExtractValue(v.members[from].1), ExtractMembers(v, from + 1))
      case (Some(x), Some(ps)) =>
        assert v.members[from..] == [v.members[from]] + v.members[from + 1..];
        Some([(v.members[from].0, x)] + ps)
      case _ => None
  }

  /** `v.map(extractValue)` for the elements of array `v` from position `from` on, or None when one throws. */
  function ExtractEach(v: Json, from: nat): (r: Option<seq<Json>>)
    requires v.Arr? && from <= |v.elems|
    decreases v, 0, |v.elems| - from
    ensures var es := v.elems[from..];
      && (r.Some? <==> forall i :: 0 <= i < |es| ==> ExtractValue(es[i]).Some?)
      && (r.Some? ==> |r.value| == |es|)
      && (r.Some? ==> forall i :: 0 <= i < |es| ==> ExtractValue(es[i]) == Some(r.value[i]))
  {
    if from == |v.elems| then Some([])
    else match (ExtractValue(v.elems[from]), ExtractEach(v, from + 1))
      case (Some(x), Some(xs)) => Some([x] + xs)
      case _ => None
  }

  /** Input that is falsy, not an object, or lacks `type` or `value` comes back unchanged. */
  lemma UntaggedUnchanged(j: Json)
    requires !IsTaggedObject(j)
    ensures ExtractValue(j) == Some(j)
  {
  }

  /** An `array` node with an array value maps to an array of the same length and order. */
  lemma ArrayNode(j: Json)
    requires IsTaggedObject(j)
    requires ValueUnwrap.Field(j, "type") == Str("array") && ValueUnwrap.Field(j, "value").Arr?
    ensures var es := ValueUnwrap.Field(j, "value").elems;
      && (ExtractValue(j).Some? <==> forall i :: 0 <= i < |es| ==> ExtractValue(es[i]).Some?)
      && (ExtractValue(j).Some? ==>
            ExtractValue(j).value.Arr? && |ExtractValue(j).value.elems| == |es| &&
            forall i :: 0 <= i < |es| ==> ExtractValue(es[i]) == Some(ExtractValue(j).value.elems[i]))
  {
  }

  /** An `object` node with an object value keeps that value's keys, each value unwrapped. */
  lemma ObjectNode(j: Json)
    requires IsTaggedObject(j)
    requires ValueUnwrap.Field(j, "type") == Str("object") && ValueUnwrap.Field(j, "value").Obj?
    requires DistinctKeys(ValueUnwrap.Field(j, "value").members)
    ensures var ms := ValueUnwrap.Field(j, "value").members;
      && (ExtractValue(j).Some? <==> forall i :: 0 <= i < |ms| ==> ExtractValue(ms[i].1).Some?)
      && (ExtractValue(j).Some? ==>
            ExtractValue(j).value.Obj? && Keys(ExtractValue(j).value.members) == Keys(ms) &&
            forall i :: 0 <= i < |ms| ==> ExtractValue(ms[i].1) == Some(ExtractValue(j).value.members[i].1))
  {
    var v := ValueUnwrap.Field(j, "value");
    assert ExtractValue(j) == ExtractNode(Str("object"), v);
    assert v.members[0..] == v.members;
    match ExtractMembers(v, 0)
    case None =>
    case Some(ps) =>
      assert Keys(ps) == Keys(v.members);
      UpdateEmpty(ps);
  }

  /**
   * Unlike the server, an `object` node whose value is an array is accepted
   * too: it becomes an object keyed "0", "1", ... in array order.
   */
  lemma ObjectNodeOverArray(j: Json)
    requires IsTaggedObject(j)
    requires ValueUnwrap.Field(j, "type") == Str("object") && ValueUnwrap.Field(j, "value").Arr?
    ensures var es := ValueUnwrap.Field(j, "value").elems;
      && (ExtractValue(j).Some? <==> forall i :: 0 <= i < |es| ==> ExtractValue(es[i]).Some?)
      && (ExtractValue(j).Some? ==>
            ExtractValue(j).value.Obj? && Keys(ExtractValue(j).value.members) == IndexKeys(|es|) &&
            forall i :: 0 <= i < |es| ==> ExtractValue(es[i]) == Some(ExtractValue(j).value.members[i].1))
  {
    var v := ValueUnwrap.Field(j, "value");
    assert ExtractValue(j) == ExtractNode(Str("object"), v);
    assert v.elems[0..] == v.elems;
    match ExtractEach(v, 0)
    case None =>
    case Some(xs) =>
      var ps := Zip(IndexKeys(|xs|), xs);
      forall a, b | 0 <= a < b < |ps| ensures ps[a].0 != ps[b].0 {
        if ps[a].0 == ps[b].0 { Text.NatToStringInjective(a, b); }
      }
      UpdateEmpty(ps);
  }

  /** An `object` node whose value is null throws (Object.entries(null)). */
  lemma ObjectNodeOverNull(j: Json)
    requires IsTaggedObject(j)
    requires ValueUnwrap.Field(j, "type") == Str("object") && ValueUnwrap.Field(j, "value") == Null
    ensures ExtractValue(j).None?
  {
  }

  /** Any other tagged node returns its value verbatim. */
  lemma OtherNode(j: Json)
    requires IsTaggedObject(j)
    requires ValueUnwrap.Field(j, "type") != Str("array") || !ValueUnwrap.Field(j, "value").Arr?
    requires ValueUnwrap.Field(j, "type") != Str("object") || ValueUnwrap.Field(j, "value").Str?
          || ValueUnwrap.Field(j, "value").Num? || ValueUnwrap.Field(j, "value").Bool?
    ensures ExtractValue(j) == Some(ValueUnwrap.Field(j, "value"))
  {
  }

  /**
   * No `object` node the unwrapper reaches carries an array or null value:
   * the inputs on which the browser and the server unwrappers can agree.
   */
  predicate NoObjectTagOnListOrNull(j: Json)
  {
    if !IsTaggedObject(j) then true
    else
      var ms := j.members;
      var t := ms[IndexOf(ms, "type").value].1;
      var v := ms[IndexOf(ms, "value").value].1;
      if t == Str("array") && v.Arr? then
        forall i :: 0 <= i < |v.elems| ==> NoObjectTagOnListOrNull(v.elems[i])
      else if t == Str("object") && v.Obj? then
        forall i :: 0 <= i < |v.members| ==> NoObjectTagOnListOrNull(v.members[i].1)
      else
        !(t == Str("object") && (v.Arr? || v.Null?))
  }

  /** On those inputs the two unwrappers give the same result. */
  lemma {:induction false} TwinsAgree(j: Json)
    requires NoObjectTagOnListOrNull(j)
    ensures ExtractValue(j) == Some(ValueUnwrap.ExtractValue(j))
  {
    if IsTaggedObject(j) {
      var ms := j.members;
      var t := ms[IndexOf(ms, "type").value].1;
      var v := ms[IndexOf(ms, "value").value].1;
      assert ExtractValue(j) == ExtractNode(t, v);
      if t == Str("array") && v.Arr? {
        assert v.elems[0..] == v.elems;
        forall i | 0 <= i < |v.elems| ensures ExtractValue(v.elems[i]) == Some(ValueUnwrap.ExtractValue(v.elems[i])) {
          TwinsAgree(v.elems[i]);
        }
        var xs := ExtractEach(v, 0).value;
        assert xs == seq(|v.elems|, i requires 0 <= i < |v.elems| => ValueUnwrap.ExtractValue(v.elems[i]));
      } else if t == Str("object") && v.Obj? {
        assert v.members[0..] == v.members;
        forall i | 0 <= i < |v.members| ensures ExtractValue(v.members[i].1) == Some(ValueUnwrap.ExtractValue(v.members[i].1)) {
          TwinsAgree(v.members[i].1);
        }
        var ps := ExtractMembers(v, 0).value;
        assert ps == seq(|v.members|, i requires 0 <= i < |v.members| =>
          (v.members[i].0, ValueUnwrap.ExtractValue(v.members[i].1)));
      }
    }
  }

  /** The server returns a list verbatim where the browser builds an object keyed by index. */
  lemma ObjectTagOnListDiverges()
    ensures ValueUnwrap.ExtractValue(ValueUnwrap.Tagged("object", Arr([Num(7)]))) == Arr([Num(7)])
    ensures ExtractValue(ValueUnwrap.Tagged("object", Arr([Num(7)]))) == Some(Obj([("0", Num(7))]))
  {
    var j := ValueUnwrap.Tagged("object", Arr([Num(7)]));
    assert ExtractValue(Num(7)) == Some(Num(7));
    ObjectNodeOverArray(j);
    assert Text.NatToString(0) == "0";
    var ms := ExtractValue(j).value.members;
    assert Keys(ms) == ["0"];
    assert |ms| == 1 && ms[0].0 == Keys(ms)[0];
    assert ms == [("0", Num(7))];
  }

  /** The server returns null where the browser throws. */
  lemma ObjectTagOnNullDiverges()
    ensures ValueUnwrap.ExtractValue(ValueUnwrap.Tagged("object", Null)) == Null
    ensures ExtractValue(ValueUnwrap.Tagged("object", Null)).None?
  {
  }

  /** The browser also undoes the full wrapping of any well-formed document. */
  lemma ExtractWrapped(x: Json)
    requires WellFormed(x)
    ensures ExtractValue(ValueUnwrap.Wrap(x)) == Some(x)
  {
    WrappedAgree(x);
    TwinsAgree(ValueUnwrap.Wrap(x));
    ValueUnwrap.ExtractWrapped(x);
  }

  /** The full wrapping never puts a list or null under an `object` tag. */
  lemma {:induction false} WrappedAgree(x: Json)
    ensures NoObjectTagOnListOrNull(ValueUnwrap.Wrap(x))
  {
    match x
    case Arr(es) =>
      forall i | 0 <= i < |es| ensures NoObjectTagOnListOrNull(ValueUnwrap.Wrap(es[i])) {
        WrappedAgree(es[i]);
      }
    case Obj(ms) =>
      forall i | 0 <= i < |ms| ensures NoObjectTagOnListOrNull(ValueUnwrap.Wrap(ms[i].1)) {
        WrappedAgree(ms[i].1);
      }
    case _ =>
  }

  // ---------------------------------------------------------------------------
  // formatResults: unwrapping the reply's members and splitting them

  /**
   * `cleanData[key] = extractValue(value)` for every entry of the reply:
   * the same keys in the same order, each value unwrapped; None when one of
   * the calls throws.
   */
  method CleanEntries(data: seq<Member>) returns (cleanData: Option<seq<Member>>)
    requires DistinctKeys(data)
    ensures cleanData.Some? <==> forall i :: 0 <= i < |data| ==> ExtractValue(data[i].1).Some?
    ensures cleanData.Some? ==> |cleanData.value| == |data|
    ensures cleanData.Some? ==> forall i :: 0 <= i < |data| ==>
      cleanData.value[i].0 == data[i].0 && ExtractValue(data[i].1) == Some(cleanData.value[i].1)
  {
    var clean: seq<Member> := [];
    var i := 0;
    while i < |data|
      invariant 0 <= i <= |data|
      invariant |clean| == i
      invariant forall j :: 0 <= j < i ==> clean[j].0 == data[j].0 && ExtractValue(data[j].1) == Some(clean[j].1)
    {
      var (key, value) := data[i];
      var x := ExtractValue(value);
      if x.None? {
        return None;
      }
      assert IndexOf(clean, key).None?;
      clean := Assign(clean, key, x.value);
      i := i + 1;
    }
    cleanData := Some(clean);
  }

  /** The members whose value is an array (`arrays`) or is not (`!arrays`), in order. */
  function FieldsWhere(ms: seq<Member>, arrays: bool): (r: seq<Member>)
    ensures forall p :: p in r <==> p in ms && p.1.Arr? == arrays
    decreases |ms|
  {
    if ms == [] then []
    else
      var init, last := ms[..|ms| - 1], ms[|ms| - 1];
      assert forall p :: p in ms <==> p in init || p == last;
      FieldsWhere(init, arrays) + if last.1.Arr? == arrays then [last] else []
  }

  /**
   * The loop of `formatResults` that puts every array-valued entry of
   * `cleanData` into `arrayFields` and every other entry into `simpleFields`.
   */
  method PartitionFields(cleanData: seq<Member>) returns (simpleFields: seq<Member>, arrayFields: seq<Member>)
    requires DistinctKeys(cleanData)
    ensures arrayFields == FieldsWhere(cleanData, true)
    ensures simpleFields == FieldsWhere(cleanData, false)
  {
    simpleFields, arrayFields := [], [];
    var i := 0;
    while i < |cleanData|
      invariant 0 <= i <= |cleanData|
      invariant arrayFields == FieldsWhere(cleanData[..i], true)
      invariant simpleFields == FieldsWhere(cleanData[..i], false)
    {
      var (key, value) := cleanData[i];
      assert cleanData[..i + 1][..i] == cleanData[..i];
      assert forall p :: p in cleanData[..i] ==> p.0 != key by {
        forall p | p in cleanData[..i] ensures p.0 != key {
          var j :| 0 <= j < i && cleanData[j] == p;
        }
      }
      if value.Arr? {
        assert IndexOf(arrayFields, key).None?;
        arrayFields := Assign(arrayFields, key, value);
      } else {
        assert IndexOf(simpleFields, key).None?;
        simpleFields := Assign(simpleFields, key, value);
      }
      i := i + 1;
    }
    assert cleanData[..i] == cleanData;
  }

  /**
   * Every key of `cleanData` lands in exactly one of the two groups,
   * `arrayFields` holds exactly the array-valued keys, and the values are
   * the ones `cleanData` holds, untouched.
   */
  lemma PartitionKeys(cleanData: seq<Member>, k: string)
    requires DistinctKeys(cleanData)
    ensures var arrays, simple := FieldsWhere(cleanData, true), FieldsWhere(cleanData, false);
      && (HasKey(cleanData, k) <==> HasKey(arrays, k) || HasKey(simple, k))
      && !(HasKey(arrays, k) && HasKey(simple, k))
      && (HasKey(arrays, k) <==> HasKey(cleanData, k) && Lookup(cleanData, k).value.Arr?)
      && (HasKey(arrays, k) ==> Lookup(arrays, k) == Lookup(cleanData, k))
      && (HasKey(simple, k) ==> Lookup(simple, k) == Lookup(cleanData, k))
  {
    var arrays, simple := FieldsWhere(cleanData, true), FieldsWhere(cleanData, false);
    if HasKey(cleanData, k) {
      var i := IndexOf(cleanData, k).value;
      var p := cleanData[i];
      if p.1.Arr? {
        assert p in arrays;
        var x :| 0 <= x < |arrays| && arrays[x] == p;
        assert HasKey(arrays, k);
      } else {
        assert p in simple;
        var x :| 0 <= x < |simple| && simple[x] == p;
        assert HasKey(simple, k);
      }
    }
    if HasKey(arrays, k) {
      var q := arrays[IndexOf(arrays, k).value];
      assert q in cleanData;
      MemberLookup(cleanData, q);
    }
    if HasKey(simple, k) {
      var q := simple[IndexOf(simple, k).value];
      assert q in cleanData;
      MemberLookup(cleanData, q);
    }
  }

  /** With distinct keys, a member is what Lookup finds under its key. */
  lemma MemberLookup(ms: seq<Member>, p: Member)
    requires DistinctKeys(ms) && p in ms
    ensures Lookup(ms, p.0) == Some(p.1)
  {
    var i :| 0 <= i < |ms| && ms[i] == p;
    LookupAt(ms, i);
  }

  // ---------------------------------------------------------------------------
  // base64urlencode

  type Byte = b: int | 0 <= b < 256

  /** The binary string `btoa` expects: one character per byte, with the byte as its code. */
  function Latin1(bytes: seq<Byte>): string
  {
    seq(|bytes|, i requires 0 <= i < |bytes| => bytes[i] as char)
  }

  /** `str += String.fromCharCode(bytes[i])` for every byte. */
  method BinaryString(bytes: seq<Byte>) returns (str: string)
    ensures |str| == |bytes|
    ensures forall i :: 0 <= i < |bytes| ==> str[i] as int == bytes[i]
  {
    str := "";
    var i := 0;
    while i < |bytes|
      invariant 0 <= i <= |bytes|
      invariant |str| == i
      invariant forall j :: 0 <= j < i ==> str[j] as int == bytes[j]
    {
      str := str + [bytes[i] as char];
      i := i + 1;
    }
  }

  /** Every `from` replaced by `to` (a global regular-expression replace of one character). */
  function ReplaceChar(s: string, from: char, to: char): (r: string)
    ensures |r| == |s|
    ensures forall i :: 0 <= i < |s| ==> r[i] == if s[i] == from then to else s[i]
  {
    seq(|s|, i requires 0 <= i < |s| => if s[i] == from then to else s[i])
  }

  /** `s.replace(/=+$/, '')`: drop the run of `c` at the very end. */
  function TrimTrailing(s: string, c: char): (r: string)
    ensures r <= s
    ensures r == [] || r[|r| - 1] != c
    ensures forall i :: |r| <= i < |s| ==> s[i] == c
  {
    if s != [] && s[|s| - 1] == c then TrimTrailing(s[..|s| - 1], c) else s
  }

  /** Standard base64 text turned into its URL-safe, unpadded form. */
  function UrlSafe(b64: string): (r: string)
    ensures '+' !in r && '/' !in r
    ensures r == [] || r[|r| - 1] != '='
  {
    TrimTrailing(ReplaceChar(ReplaceChar(b64, '+', '-'), '/', '_'), '=')
  }

  /** `btoa(str)` over the binary string, then the URL-safe rewrite. */
  method Base64UrlEncode(buffer: seq<Byte>, btoa: string -> string) returns (encoded: string)
    ensures encoded == UrlSafe(btoa(Latin1(buffer)))
  {
    var str := BinaryString(buffer);
    assert str == Latin1(buffer);
    encoded := UrlSafe(btoa(str));
  }

  predicate StandardChar(c: char)
  {
    'A' <= c <= 'Z' || 'a' <= c <= 'z' || '0' <= c <= '9' || c == '+' || c == '/'
  }

  /**
   * Standard base64 text: a multiple of four characters from the standard
   * alphabet, with `pad` (at most two) `=` at the end.
   */
  predicate PaddedBase64(b: string, pad: nat)
  {
    && |b| % 4 == 0 && pad <= 2 && pad <= |b|
    && (forall i :: 0 <= i < |b| - pad ==> StandardChar(b[i]))
    && (forall i :: |b| - pad <= i < |b| ==> b[i] == '=')
  }

  /** The inverse rewrite: back to `+` and `/`, padded with `=` to a multiple of four. */
  function FromUrlSafe(r: string): string
  {
    ReplaceChar(ReplaceChar(r, '-', '+'), '_', '/') + seq((4 - |r| % 4) % 4, _ => '=')
  }

  /**
   * The rewrite loses nothing on standard base64 text: the trailing `=` run
   * is exactly the padding, and every other character maps back.
   */
  lemma UrlSafeRoundTrip(b: string, pad: nat)
    requires PaddedBase64(b, pad)
    ensures FromUrlSafe(UrlSafe(b)) == b
    ensures |UrlSafe(b)| == |b| - pad
  {
    var t := ReplaceChar(ReplaceChar(b, '+', '-'), '/', '_');
    var r := UrlSafe(b);
    assert forall i :: 0 <= i < |b| - pad ==> t[i] != '=';
    assert forall i :: |b| - pad <= i < |b| ==> t[i] == '=';
    assert |b| - pad == 0 || t[|b| - pad - 1] != '=';
    assert |r| == 0 || r[|r| - 1] == t[|r| - 1];
    assert |r| == |b| - pad;
    var back := FromUrlSafe(r);
    assert (4 - |r| % 4) % 4 == pad;
    assert |back| == |b|;
    forall i | 0 <= i < |b| ensures back[i] == b[i] {
      if i < |r| {
        assert r[i] == t[i];
      }
    }
  }
}

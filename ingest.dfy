/**
 * Forwarding extracted records to the ingestion endpoint
 * (`ingest_to_datacloud` in app.py). The identifier generator, the clock,
 * the HTTP POST and the JSON decoding of its reply are parameters.
 */
module DataCloud {
  import opened Wrappers
  import opened JsonValues
  import ValueUnwrap

  /** What the POST came back with; NoReply stands for `requests.post` raising. */
  datatype PostReply = NoReply | Replied(status: int, text: string)

  /** The collaborators the function reaches out to. */
  datatype Effects = Effects(
    eventId: nat -> string,          // str(uuid.uuid4()) for record n
    eventTime: nat -> string,        // the UTC timestamp text for record n
    post: Json -> PostReply,         // the POST of a payload to the ingestion URL
    parse: string -> Option<Json>,   // response.json() and json.loads(); None when the text is not JSON
    describe: Fault -> string)       // str(e) for the exception behind a fault

  /** The exception that sent the function to its `except` branch. */
  datatype Fault =
    | DataNotAnObject   // data.items() on something that is not a dict
    | LeadNotAnObject   // record.update(lead) on a lead that is not a dict
    | PostRaised        // the POST itself raised
    | ResponseNotJson   // response.json() raised on a successful reply

  /** The three dicts the function returns. */
  datatype IngestStatus =
    | Ingested(recordsIngested: nat, response: Json)   // success: True
    | Rejected(error: string, statusCode: int)         // success: False, with the status
    | Raised(fault: Fault)                             // success: False, from the except branch

  /** `clean_data[key] = extract_value(value)` for every top-level member, in order. */
  function CleanData(ms: seq<Member>): seq<Member>
  {
    UpdateWith([], UnwrappedMembers(ms))
  }

  function UnwrappedMembers(ms: seq<Member>): (ps: seq<Member>)
    ensures |ps| == |ms|
    ensures forall i :: 0 <= i < |ms| ==> ps[i] == (ms[i].0, ValueUnwrap.ExtractValue(ms[i].1))
  {
    seq(|ms|, i requires 0 <= i < |ms| => (ms[i].0, ValueUnwrap.ExtractValue(ms[i].1)))
  }

  /** With distinct keys, the cleaned dict has the same keys in the same order, each value unwrapped. */
  lemma CleanDataMembers(ms: seq<Member>)
    requires DistinctKeys(ms)
    ensures |CleanData(ms)| == |ms|
    ensures forall i :: 0 <= i < |ms| ==> CleanData(ms)[i] == (ms[i].0, ValueUnwrap.ExtractValue(ms[i].1))
  {
    UpdateEmpty(UnwrappedMembers(ms));
  }

  /** Position of the first member, in key order, whose value is a list. */
  function FirstList(ms: seq<Member>): (r: Option<nat>)
    ensures r.Some? ==> r.value < |ms| && ms[r.value].1.Arr?
    ensures r.Some? ==> forall j :: 0 <= j < r.value ==> !ms[j].1.Arr?
    ensures r.None? <==> forall j :: 0 <= j < |ms| ==> !ms[j].1.Arr?
  {
    if ms == [] then None
    else if ms[0].1.Arr? then Some(0)
    else match FirstList(ms[1..])
      case None => None
      case Some(i) => Some(i + 1)
  }

  /** The two members every record starts with. */
  function BaseRecord(id: string, time: string): seq<Member>
  {
    [("EventID", Str(id)), ("eventime", Str(time))]
  }

  /** Record n: the synthesized fields first, then `record.update(lead)`. */
  function Record(n: nat, lead: seq<Member>, fx: Effects): seq<Member>
  {
    UpdateWith(BaseRecord(fx.eventId(n), fx.eventTime(n)), lead)
  }

  /** `{"data": records}`, the body of the POST. */
  function Payload(records: seq<Json>): Json
  {
    Obj([("data", Arr(records))])
  }

  /** The outcome for the POST's reply, with `count` records sent. */
  function Classify(reply: PostReply, count: nat, parse: string -> Option<Json>): (r: IngestStatus)
    ensures r.Ingested? <==> reply.Replied? && reply.status in {200, 201, 202}
                             && (reply.text == "" || parse(reply.text).Some?)
    ensures r.Ingested? ==> r.recordsIngested == count
    ensures r.Ingested? && reply.text != "" ==> Some(r.response) == parse(reply.text)
    ensures r.Rejected? <==> reply.Replied? && reply.status !in {200, 201, 202}
    ensures r.Rejected? ==> r.error == reply.text && r.statusCode == reply.status
    ensures r.Ingested? && reply.text == "" ==> r.response == Obj([])
    ensures r.Raised? ==> r.fault == if reply.NoReply? then PostRaised else ResponseNotJson
  {
    match reply
    case NoReply => Raised(PostRaised)
    case Replied(status, text) =>
      if status in {200, 201, 202} then
        if text == "" then Ingested(count, Obj([]))
        else match parse(text)
          case None => Raised(ResponseNotJson)
          case Some(body) => Ingested(count, body)
      else Rejected(text, status)
  }

  /** `leads_data`: the elements of the first list-valued member, if any. */
  function LeadsOf(clean: seq<Member>): Option<seq<Json>>
  {
    match FirstList(clean)
    case None => None
    case Some(i) => Some(clean[i].1.elems)
  }

  /** The records built from the leads; None when a lead is not a dict (`update` raises). */
  function Records(leads: seq<Json>, fx: Effects): (r: Option<seq<Json>>)
    ensures r.None? <==> exists n :: 0 <= n < |leads| && !leads[n].Obj?
    ensures r.Some? ==> |r.value| == |leads|
    ensures r.Some? ==> forall n :: 0 <= n < |leads| ==> leads[n].Obj? && r.value[n] == Obj(Record(n, leads[n].members, fx))
  {
    if exists n :: 0 <= n < |leads| && !leads[n].Obj? then None
    else Some(seq(|leads|, n requires 0 <= n < |leads| => Obj(Record(n, leads[n].members, fx))))
  }

  /**
   * What `ingest_to_datacloud(data, ...)` returns: None when there is no list
   * to send (nothing is posted), otherwise one of the three status dicts.
   */
  function Ingestion(data: Json, fx: Effects): Option<IngestStatus>
  {
    if !data.Obj? then Some(Raised(DataNotAnObject))
    else match LeadsOf(CleanData(data.members))
      case None => None
      case Some(leads) =>
        if leads == [] then None
        else match Records(leads, fx)
          case None => Some(Raised(LeadNotAnObject))
          case Some(records) => Some(Classify(fx.post(Payload(records)), |records|, fx.parse))
  }

  /** The function's body, loop by loop. */
  method Ingest(data: Json, fx: Effects) returns (status: Option<IngestStatus>)
    ensures status == Ingestion(data, fx)
  {
    if !data.Obj? {
      return Some(Raised(DataNotAnObject));
    }
    var clean := CleanMembers(data.members);
    var leadsData := FindLeads(clean);
    if leadsData.None? || leadsData.value == [] {
      return None;
    }
    var records := BuildRecords(leadsData.value, fx);
    if records.None? {
      return Some(Raised(LeadNotAnObject));
    }
    status := Some(Classify(fx.post(Payload(records.value)), |records.value|, fx.parse));
  }

  /** `for key, value in data.items(): clean_data[key] = extract_value(value)` */
  method CleanMembers(ms: seq<Member>) returns (clean: seq<Member>)
    ensures clean == CleanData(ms)
  {
    clean := [];
    var i := 0;
    while i < |ms|
      invariant 0 <= i <= |ms|
      invariant clean == UpdateWith([], UnwrappedMembers(ms)[..i])
    {
      assert UnwrappedMembers(ms)[..i + 1][..i] == UnwrappedMembers(ms)[..i];
      clean := Assign(clean, ms[i].0, ValueUnwrap.ExtractValue(ms[i].1));
      i := i + 1;
    }
    assert UnwrappedMembers(ms)[..i] == UnwrappedMembers(ms);
  }

  /** The search for the first list-valued member, stopping at the first one found. */
  method FindLeads(clean: seq<Member>) returns (leadsData: Option<seq<Json>>)
    ensures leadsData == LeadsOf(clean)
  {
    leadsData := None;
    var j := 0;
    while j < |clean|
      invariant 0 <= j <= |clean|
      invariant forall x :: 0 <= x < j ==> !clean[x].1.Arr?
    {
      if clean[j].1.Arr? {
        assert FirstList(clean) == Some(j);
        return Some(clean[j].1.elems);
      }
      j := j + 1;
    }
  }

  /** The loop that builds one record per lead; None where `record.update(lead)` raises. */
  method BuildRecords(leads: seq<Json>, fx: Effects) returns (records: Option<seq<Json>>)
    ensures records == Records(leads, fx)
  {
    var built: seq<Json> := [];
    var n := 0;
    while n < |leads|
      invariant 0 <= n <= |leads|
      invariant |built| == n
      invariant forall x :: 0 <= x < n ==> leads[x].Obj? && built[x] == Obj(Record(x, leads[x].members, fx))
    {
      var record := BaseRecord(fx.eventId(n), fx.eventTime(n));
      if !leads[n].Obj? {
        return None;
      }
      record := UpdateWith(record, leads[n].members);
      built := built + [Obj(record)];
      n := n + 1;
    }
    assert built == seq(|leads|, x requires 0 <= x < |leads| => Obj(Record(x, leads[x].members, fx)));
    records := Some(built);
  }

  /**
   * The status dict as the caller attaches it to the extraction result;
   * `describe` is `str(e)` for the exception behind a fault.
   */
  function StatusJson(st: IngestStatus, describe: Fault -> string): (j: Json)
    ensures j.Obj? && DistinctKeys(j.members)
    ensures |j.members| >= 2 && j.members[0] == ("success", Bool(st.Ingested?))
    ensures HasKey(j.members, "records_ingested") <==> st.Ingested?
    ensures HasKey(j.members, "response") <==> st.Ingested?
    ensures HasKey(j.members, "status_code") <==> st.Rejected?
    ensures HasKey(j.members, "error") <==> !st.Ingested?
    ensures st.Ingested? ==> Lookup(j.members, "records_ingested") == Some(Num(st.recordsIngested))
    ensures st.Ingested? ==> Lookup(j.members, "response") == Some(st.response)
    ensures st.Rejected? ==> Lookup(j.members, "error") == Some(Str(st.error))
    ensures st.Rejected? ==> Lookup(j.members, "status_code") == Some(Num(st.statusCode))
    ensures st.Raised? ==> Lookup(j.members, "error") == Some(Str(describe(st.fault)))
  {
    match st
    case Ingested(n, body) =>
      var ms := [("success", Bool(true)), ("records_ingested", Num(n)), ("response", body)];
      ThreeKeys(ms);
      Absent(ms, "status_code"); Absent(ms, "error");
      Obj(ms)
    case Rejected(text, code) =>
      var ms := [("success", Bool(false)), ("error", Str(text)), ("status_code", Num(code))];
      ThreeKeys(ms);
      Absent(ms, "records_ingested"); Absent(ms, "response");
      Obj(ms)
    case Raised(f) =>
      var ms := [("success", Bool(false)), ("error", Str(describe(f)))];
      TwoKeys(ms);
      Absent(ms, "records_ingested"); Absent(ms, "response"); Absent(ms, "status_code");
      Obj(ms)
  }

  /** A three-member dict whose keys have different lengths reads back each member. */
  lemma ThreeKeys(ms: seq<Member>)
    requires |ms| == 3 && |ms[0].0| != |ms[1].0| && |ms[0].0| != |ms[2].0| && |ms[1].0| != |ms[2].0|
    ensures DistinctKeys(ms)
    ensures Lookup(ms, ms[0].0) == Some(ms[0].1) && Lookup(ms, ms[1].0) == Some(ms[1].1)
    ensures Lookup(ms, ms[2].0) == Some(ms[2].1)
    ensures HasKey(ms, ms[0].0) && HasKey(ms, ms[1].0) && HasKey(ms, ms[2].0)
  {
    LookupAt(ms, 0); LookupAt(ms, 1); LookupAt(ms, 2);
  }

  /** A two-member dict whose keys have different lengths reads back each member. */
  lemma TwoKeys(ms: seq<Member>)
    requires |ms| == 2 && |ms[0].0| != |ms[1].0|
    ensures DistinctKeys(ms)
    ensures Lookup(ms, ms[0].0) == Some(ms[0].1) && Lookup(ms, ms[1].0) == Some(ms[1].1)
    ensures HasKey(ms, ms[0].0) && HasKey(ms, ms[1].0)
  {
    LookupAt(ms, 0); LookupAt(ms, 1);
  }

  /** A key whose length no member's key has is absent. */
  lemma Absent(ms: seq<Member>, k: string)
    requires forall i :: 0 <= i < |ms| ==> |ms[i].0| != |k|
    ensures !HasKey(ms, k)
  {
  }

  /**
   * Each record opens with EventID and eventime, holds every field of its
   * lead, and a lead field of either name replaces the synthesized value.
   */
  lemma RecordFields(n: nat, lead: seq<Member>, fx: Effects)
    requires DistinctKeys(lead)
    ensures var r := Record(n, lead, fx);
      && |r| >= 2 && r[0].0 == "EventID" && r[1].0 == "eventime"
      && DistinctKeys(r)
      && (forall k :: HasKey(r, k) <==> k == "EventID" || k == "eventime" || HasKey(lead, k))
      && (forall k :: HasKey(lead, k) ==> Lookup(r, k) == Lookup(lead, k))
      && (!HasKey(lead, "EventID") ==> Lookup(r, "EventID") == Some(Str(fx.eventId(n))))
      && (!HasKey(lead, "eventime") ==> Lookup(r, "eventime") == Some(Str(fx.eventTime(n))))
  {
    var base := BaseRecord(fx.eventId(n), fx.eventTime(n));
    var r := Record(n, lead, fx);
    assert Keys(base) == ["EventID", "eventime"];
    UpdateKeys(base, lead);
    assert Keys(r)[0] == "EventID" && Keys(r)[1] == "eventime";
    UpdateDistinct(base, lead);
    assert IndexOf(base, "EventID") == Some(0);
    assert IndexOf(base, "eventime") == Some(1);
    forall k
      ensures HasKey(r, k) <==> k == "EventID" || k == "eventime" || HasKey(lead, k)
      ensures HasKey(lead, k) ==> Lookup(r, k) == Lookup(lead, k)
    {
      UpdateLookup(base, lead, k);
      assert HasKey(base, k) <==> k == "EventID" || k == "eventime";
    }
    UpdateLookup(base, lead, "EventID");
    UpdateLookup(base, lead, "eventime");
  }

  /** Nothing is posted when no top-level value unwraps to a list. */
  lemma NothingToSend(data: Json, fx: Effects)
    requires data.Obj? && DistinctKeys(data.members)
    requires forall i :: 0 <= i < |data.members| ==> !ValueUnwrap.ExtractValue(data.members[i].1).Arr?
    ensures Ingestion(data, fx) == None
  {
    CleanDataMembers(data.members);
  }

  /**
   * The first top-level value, in key order, that unwraps to a list is the one
   * sent; the lists after it are ignored. An empty one means nothing is sent, a
   * lead that is not a dict means nothing is sent and the call reports a fault.
   */
  lemma SendsFirstList(data: Json, fx: Effects, i: nat, leads: seq<Json>)
    requires data.Obj? && DistinctKeys(data.members) && i < |data.members|
    requires ValueUnwrap.ExtractValue(data.members[i].1) == Arr(leads)
    requires forall j :: 0 <= j < i ==> !ValueUnwrap.ExtractValue(data.members[j].1).Arr?
    ensures leads == [] ==> Ingestion(data, fx) == None
    ensures (exists n :: 0 <= n < |leads| && !leads[n].Obj?) ==> Ingestion(data, fx) == Some(Raised(LeadNotAnObject))
    ensures leads != [] && (forall n :: 0 <= n < |leads| ==> leads[n].Obj?) ==>
      Ingestion(data, fx) == Some(Classify(fx.post(Payload(Records(leads, fx).value)), |leads|, fx.parse))
  {
    LeadsOfData(data.members, i, leads);
  }

  /** The leads found in the cleaned dict are the first list the top-level values unwrap to. */
  lemma LeadsOfData(ms: seq<Member>, i: nat, leads: seq<Json>)
    requires DistinctKeys(ms) && i < |ms|
    requires ValueUnwrap.ExtractValue(ms[i].1) == Arr(leads)
    requires forall j :: 0 <= j < i ==> !ValueUnwrap.ExtractValue(ms[j].1).Arr?
    ensures LeadsOf(CleanData(ms)) == Some(leads)
  {
    var clean := CleanData(ms);
    CleanDataMembers(ms);
    assert clean[i].1 == Arr(leads);
    assert forall j :: 0 <= j < i ==> !clean[j].1.Arr?;
    assert FirstList(clean) == Some(i);
  }

  /** A successful call reports as many records as the first list has leads, and there was one at least. */
  lemma IngestedCount(data: Json, fx: Effects)
    ensures Ingestion(data, fx).Some? && Ingestion(data, fx).value.Ingested? ==>
      && data.Obj?
      && LeadsOf(CleanData(data.members)).Some?
      && Ingestion(data, fx).value.recordsIngested == |LeadsOf(CleanData(data.members)).value| > 0
  {
  }

  /**
   * Fields nested inside a list's element dicts are not unwrapped: the element
   * is not itself tagged, so the record carries the tagged dict as the field's value.
   */
  lemma LeadFieldsStayTagged(fx: Effects)
    ensures var name := ValueUnwrap.Tagged("string", Str("Bob"));
      var data := Obj([("x", ValueUnwrap.Tagged("array", Arr([Obj([("Name", name)])])))]);
      LeadsOf(CleanData(data.members)) == Some([Obj([("Name", name)])])
      && Lookup(Record(0, [("Name", name)], fx), "Name") == Some(name)
      && name != Str("Bob")
  {
    var name := ValueUnwrap.Tagged("string", Str("Bob"));
    var lead := Obj([("Name", name)]);
    var data := Obj([("x", ValueUnwrap.Tagged("array", Arr([lead])))]);
    ValueUnwrap.UntaggedUnchanged(lead);
    ValueUnwrap.ArrayNode(data.members[0].1);
    assert ValueUnwrap.ExtractValue(data.members[0].1) == Arr([lead]);
    CleanDataMembers(data.members);
    assert FirstList(CleanData(data.members)) == Some(0);
    RecordFields(0, [("Name", name)], fx);
    assert IndexOf([("Name", name)], "Name") == Some(0);
  }

  /**
   * When the first member that unwraps to a list is an `array` node, lead n
   * is the unwrapped element n. An element that is a dict without both `type`
   * and `value` is not unwrapped, so record n carries each of its fields as it
   * stands, envelopes included.
   */
  lemma UntaggedLeadFieldsKept(data: Json, fx: Effects, i: nat, n: nat)
    requires data.Obj? && DistinctKeys(data.members) && i < |data.members|
    requires var node := data.members[i].1;
      ValueUnwrap.IsTagged(node) && ValueUnwrap.Field(node, "type") == Str("array")
      && ValueUnwrap.Field(node, "value").Arr? && n < |ValueUnwrap.Field(node, "value").elems|
    requires forall j :: 0 <= j < i ==> !ValueUnwrap.ExtractValue(data.members[j].1).Arr?
    ensures var es := ValueUnwrap.Field(data.members[i].1, "value").elems;
      var leads := LeadsOf(CleanData(data.members));
      && leads.Some? && |leads.value| == |es|
      && leads.value[n] == ValueUnwrap.ExtractValue(es[n])
      && (es[n].Obj? && !ValueUnwrap.IsTagged(es[n]) ==> leads.value[n] == es[n])
      && (es[n].Obj? && !ValueUnwrap.IsTagged(es[n]) && DistinctKeys(es[n].members) ==>
            forall k :: HasKey(es[n].members, k) ==> Lookup(Record(n, es[n].members, fx), k) == Lookup(es[n].members, k))
  {
    var node := data.members[i].1;
    var es := ValueUnwrap.Field(node, "value").elems;
    ValueUnwrap.ArrayNode(node);
    var leads := ValueUnwrap.ExtractValue(node).elems;
    LeadsOfData(data.members, i, leads);
    if es[n].Obj? && !ValueUnwrap.IsTagged(es[n]) {
      ValueUnwrap.UntaggedUnchanged(es[n]);
      if DistinctKeys(es[n].members) {
        RecordFields(n, es[n].members, fx);
      }
    }
  }
}

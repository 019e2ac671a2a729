# Document extraction and Data Cloud ingestion, modelled in Dafny

The system is a small web application. It sends an uploaded document to a
document-processing service, gets back JSON text in which every value is
wrapped in a `{type, value}` envelope, and returns that JSON to the browser.
Where Data Cloud credentials can be obtained, it also forwards the records of
the first list in the document to a Data Cloud ingestion endpoint. The
browser unwraps the envelopes again before it shows a table. The model covers
the logic inside that flow:

- `ValueUnwrap` (unwrap.dfy): the server's unwrapper `extract_value`. `Wrap`,
  a full wrapping of a plain document in envelopes, is the value it inverts.
- `DataCloud` (ingest.dfy): `ingest_to_datacloud`, first as the function
  `Ingestion` and then as the method `Ingest`, whose loops are proved to
  compute that function. It also covers the record builder, the status
  classification and the status dict the caller attaches.
- `Extraction` (extract.dfy): `extract_data`, as a pure function of the
  request, the upstream reply and the collaborators. This includes the
  `allowed_file` check, the request checks, the ladder of checks on the reply,
  the entity unescape and the assembly of the final body.
- `Browser` (browser.dfy): the browser side.
  - `extractValue`, and how it differs from the server's unwrapper.
  - The unwrap loop and the simple/array split of `formatResults`.
  - The byte loop and base64url rewrite of `base64urlencode`.
- `JsonValues` (json.dfy), `Text` (text.dfy) and `Wrappers` (wrappers.dfy):
  shared definitions.
  - A parsed JSON value is `Json`, with integer numbers. An object is its
    member list in insertion order.
  - Python's `d[k] = v` is `Assign`: an existing key is overwritten in place,
    a new key is appended. `d.update(e)` is `UpdateWith`.
  - `Truthy` gives Python truthiness, `ReplaceAll` gives `str.replace`, and
    `Occurs` gives substring `in`.

Collaborators are parameters:

- the JSON decoder (`json.loads`, `response.json()`);
- the ingestion POST;
- the uuid and clock values for each record;
- `str(e)` of an exception;
- `btoa`;
- whether a Data Cloud token was obtained;
- the upstream reply, either a status and body text or an exception.

An exception that `extract_data`'s inner handler catches (`KeyError`,
`IndexError`, `JSONDecodeError`) is `Unprocessable`. Any other exception
reaches the outer handler and is `Crashed`.

In these places the code does something a reader may not expect:

- The extraction reply is the parsed but still-tagged document
  (app.py:467). It is not unwrapped before it is returned; only ingestion and
  the browser unwrap. See `Extraction.ExtractedDocument`.
- Every element of an `array` node goes through `extract_value` (app.py:89),
  but an element dict that lacks `type` or `value` is returned as it is
  (app.py:97). Its fields then keep their envelopes. For
  `{"x":{"type":"array","value":[{"Name":{"type":"string","value":"Bob"}}]}}`
  the lead's `Name` is still the tagged dict. See
  `DataCloud.UntaggedLeadFieldsKept` and `DataCloud.LeadFieldsStayTagged`.
- The endpoint checks that a `file` part exists and that its filename is not
  empty before the extension check (app.py:352-356).

## Model

| member | source | states |
|---|---|---|
| ValueUnwrap.ExtractValue | app.py:85-97 | definition of the unwrapper (no contract of its own); its branches are stated by the four lemmas below |
| ValueUnwrap.Wrap | app.py:85-97 | the result is always a tagged node; a full wrapping of a plain document, the value `ExtractWrapped` inverts |
| ValueUnwrap.UntaggedUnchanged | app.py:87-97 | a value that is not a truthy dict holding both `type` and `value` is returned unchanged |
| ValueUnwrap.ArrayNode | app.py:88-89 | an `array` node with a list value unwraps to a list of the same length, element i being the unwrapped element i |
| ValueUnwrap.ObjectNode | app.py:90-94 | an `object` node with a dict value unwraps to a dict with exactly the same keys in the same order, each value unwrapped |
| ValueUnwrap.OtherNode | app.py:95-96 | any other tagged node (unknown type, or a value of the wrong shape) yields its `value` verbatim, without recursion |
| ValueUnwrap.WellFormedPreserved | app.py:85-97 | unwrapping a document whose objects have distinct keys gives such a document again |
| ValueUnwrap.ExtractWrapped | app.py:85-97 | unwrapping inverts the full wrapping: `ExtractValue(Wrap(x)) == x` for every well-formed document |
| DataCloud.Ingestion | app.py:100-188 | definition of what the function returns (no contract of its own); its properties are stated by the lemmas below and `Ingest` is proved to compute it |
| DataCloud.LeadsOf | app.py:109-117 | definition of `leads_data` from the cleaned dict (no contract of its own); characterized by `LeadsOfData` |
| DataCloud.BaseRecord | app.py:122-125 | definition of the two generated fields (no contract of its own); `RecordFields` states that every record opens with them |
| DataCloud.Payload | app.py:138-140 | definition of the POST body `{"data": records}` (no contract of its own); `SendsFirstList` states that it carries the first list's records |
| DataCloud.Record | app.py:122-127 | definition of record n (no contract of its own); characterized by `RecordFields` |
| DataCloud.CleanData | app.py:104-106 | definition of `clean_data` (no contract of its own); characterized by `CleanDataMembers` |
| DataCloud.CleanDataMembers | app.py:104-106 | the cleaned dict has the data's keys in the same order, each value unwrapped |
| DataCloud.FirstList | app.py:109-113 | the index found is a list-valued member with no list-valued member before it; None exactly when no member is a list |
| DataCloud.LeadsOfData | app.py:104-113 | the leads are the first top-level value, in key order, that unwraps to a list |
| DataCloud.NothingToSend | app.py:115-117 | when no top-level value unwraps to a list, the result is None and nothing is posted |
| DataCloud.SendsFirstList | app.py:104-128 | the first list is what is sent; an empty one gives None; a lead that is not a dict gives the fault status; otherwise the status classifies the reply to the POST of those records |
| DataCloud.Records | app.py:120-128 | one record per lead, in lead order, record n built from lead n; no records when some lead is not a dict |
| DataCloud.RecordFields | app.py:122-127 | a record starts with `EventID` and `eventime`, has distinct keys, holds exactly those two keys plus the lead's keys, and a lead field of either name replaces the generated value |
| DataCloud.Classify | app.py:157-180 | success exactly when the reply's status is 200, 201 or 202 and the body is empty or parses; success reports the record count and the parsed body, or `{}` for an empty body; any other status is a failure carrying the body text and the status; a fault is `PostRaised` when the POST raised and `ResponseNotJson` when a 2xx body does not parse |
| DataCloud.IngestedCount | app.py:167-172 | a successful ingestion reports as many records as the first list has leads, and at least one |
| DataCloud.StatusJson | app.py:168-188 | the status dict has distinct keys and opens with `success`, true only for a successful ingestion; `records_ingested` and `response` are present exactly on success and hold the count and the parsed body; `status_code` is present exactly on a rejection and holds the status; `error` is present exactly on failure and holds the reply text for a rejection and `str(e)` for a fault |
| DataCloud.UntaggedLeadFieldsKept | app.py:85-128 | when the first list comes from an `array` node, lead n is its unwrapped element n; an element dict without both `type` and `value` is the lead unchanged, and record n holds each of its fields as it stands |
| DataCloud.LeadFieldsStayTagged | app.py:85-128 | for the document `{"x": array node of [{"Name": string node "Bob"}]}` the lead is the untagged element dict, and the record's `Name` is the tagged dict, not `"Bob"` |
| DataCloud.Ingest | app.py:100-188 | the function's loops compute exactly `Ingestion(data, fx)` |
| DataCloud.CleanMembers | app.py:104-106 | the unwrap loop builds the cleaned dict |
| DataCloud.FindLeads | app.py:109-113 | the `break`-terminated search returns the first list-valued member's elements |
| DataCloud.BuildRecords | app.py:120-128 | the record loop builds `Records(leads, fx)`, stopping at the first lead that is not a dict |
| Extraction.AllowedFile | app.py:348-350 | definition of `allowed_file` (no contract of its own); characterized by `AllowedFileSuffix` |
| Extraction.LastDot | app.py:350 | the position of the last `.` in the name; None exactly when there is none |
| Extraction.AllowedFileSuffix | app.py:348-350 | a file is allowed exactly when its name ends in `.` followed by one of pdf, png, jpg, jpeg, tiff, bmp in any letter case |
| Extraction.SuffixAllowed | app.py:348-350 | a name ending in `.` and an allowed extension, in any case, passes |
| Extraction.AcceptedNames | app.py:348-350 | `scan.PDF` and `photo.final.jpeg` pass |
| Extraction.RefusedNames | app.py:348-350 | `report.pdf.docx`, `pdf` and `file.` fail |
| Extraction.Validate | app.py:344-366 | a request is refused exactly when it is unauthenticated, has no file part, has an empty filename, has a disallowed extension or has a falsy schema; the status is 401 for the first and 400 for the rest |
| Extraction.ChecksComeFirst | app.py:344-366 | a refused request's reply does not depend on the upstream reply or on ingestion, and its status is 400 or 401 |
| Extraction.UpstreamFailurePassedOn | app.py:482-486 | an upstream status other than 200/201 is returned with that status, its number in the message and the body text as details |
| Extraction.ExtractData | app.py:342-491 | definition of the endpoint's answer (no contract of its own); its steps are stated by the lemmas that follow |
| Extraction.Interpret | app.py:406-413 | definition of the checks on the parsed reply (no contract of its own) |
| Extraction.InterpretItem | app.py:413-433 | definition of the checks on the first result (no contract of its own) |
| Extraction.Assemble | app.py:435-475 | definition of the success body (no contract of its own); stated by `ExtractedDocument` and `ExtractedList` |
| Extraction.Unescape | app.py:430 | definition of the two replacements (no contract of its own); stated by `UnescapeRemovesEntities` |
| Extraction.EmptyResponseIff | app.py:406-407 | the reply is "Empty response from server" exactly when the parsed reply is falsy |
| Extraction.NoDataIff | app.py:409-410 | for a non-empty dict reply, "No data in response" exactly when `data` is missing or falsy |
| Extraction.NonDictReply | app.py:409-411 | a truthy list or string reply without `"data"` (as element or substring) is refused with "No data in response", with it the reply raises; a number or `true` raises at the `in` test |
| Extraction.ReachesFirstResult | app.py:409-413 | a reply whose `data` is a non-empty list is judged by its first element |
| Extraction.ItemNeverEmpty | app.py:413-427 | the checks on the first result refuse only with "No extracted data in response" |
| Extraction.ServiceErrorClassified | app.py:413-423 | a first result whose `error` text mentions 403 gives a 403 with the auth message, any other error text gives a 500 "Service error", both with the text as details |
| Extraction.UnescapeRemovesEntities | app.py:430 | after the rewrite neither `&quot;` nor `&#92;` occurs, and a text without `&` is unchanged |
| Extraction.UnescapeExample | app.py:430 | `{&quot;a&quot;:1}` becomes `{"a":1}` |
| Extraction.ExtractedDocument | app.py:425-475 | the success body is the parsed, still-tagged dict; `_ingestion_status` is added exactly when ingestion produced a status; no other key changes and keys stay distinct |
| Extraction.ExtractedList | app.py:467-469 | a parsed list is returned as it is without Data Cloud, and makes the request fail with Data Cloud |
| Browser.UntaggedUnchanged | static/js/script.js:300-313 | a value that is not an object holding both `type` and `value` is returned unchanged |
| Browser.ArrayNode | static/js/script.js:301-302 | an `array` node with an array value maps to an array of the same length, each element unwrapped |
| Browser.ObjectNode | static/js/script.js:303-308 | an `object` node with an object value yields an object with that value's keys in order, each value unwrapped |
| Browser.ObjectNodeOverArray | static/js/script.js:303-308 | an `object` node with an array value yields an object keyed "0", "1", ... |
| Browser.ObjectNodeOverNull | static/js/script.js:303-305 | an `object` node with a null value throws |
| Browser.OtherNode | static/js/script.js:309-310 | any other tagged node yields its `value` verbatim |
| Browser.ExtractValue | static/js/script.js:299-314 | definition of the browser's unwrapper (no contract of its own), None where it throws; its branches are stated by the lemmas below |
| Browser.ExtractNode | static/js/script.js:301-311 | definition of the branch on a tagged node's `type` and `value` (no contract of its own) |
| Browser.TwinsAgree | static/js/script.js:299-314 | where no `object` node holds a list or null, the browser and server unwrappers agree |
| Browser.ObjectTagOnListDiverges | static/js/script.js:303 | on an `object` node over `[7]` the server returns the list and the browser returns `{"0": 7}` |
| Browser.ObjectTagOnNullDiverges | static/js/script.js:303 | on an `object` node over null the server returns null and the browser throws |
| Browser.WrappedAgree | static/js/script.js:299-314 | the full wrapping never puts a list or null under an `object` tag |
| Browser.ExtractWrapped | static/js/script.js:299-314 | the browser's unwrapper also inverts the full wrapping |
| Browser.ExtractMembers | static/js/script.js:305-307 | the members of an object value, each unwrapped, keys and order kept; None when one throws |
| Browser.ExtractEach | static/js/script.js:302 | the elements of an array value, each unwrapped, order kept; None when one throws |
| Browser.CleanEntries | static/js/script.js:322-325 | `cleanData` has the reply's keys in order with each value unwrapped; it fails exactly when one unwrap throws |
| Browser.FieldsWhere | static/js/script.js:341-347 | a member is selected exactly when it is in the input and its value is (or is not) an array |
| Browser.PartitionFields | static/js/script.js:338-347 | the loop puts exactly the array-valued entries, in order, in `arrayFields` and the rest in `simpleFields` |
| Browser.PartitionKeys | static/js/script.js:341-347 | every key lands in exactly one group, `arrayFields` holds exactly the array-valued keys, and the values are untouched |
| Browser.Latin1 | static/js/script.js:243-247 | definition of the binary string (no contract of its own); `Base64UrlEncode` shows that the loop of `BinaryString` builds exactly this string |
| Browser.BinaryString | static/js/script.js:243-247 | one character per byte, character i having code byte i |
| Browser.ReplaceChar | static/js/script.js:249-250 | same length, and character i is `to` where the input's is `from` and unchanged elsewhere; `UrlSafeRoundTrip` states that the two replacements are undone |
| Browser.UrlSafe | static/js/script.js:248-251 | the result has no `+`, no `/`, and does not end in `=` |
| Browser.TrimTrailing | static/js/script.js:251 | only a trailing run is removed, and the result does not end in that character |
| Browser.Base64UrlEncode | static/js/script.js:242-252 | the result is the URL-safe rewrite of `btoa` over the bytes' binary string |
| Browser.UrlSafeRoundTrip | static/js/script.js:248-251 | on padded standard base64 text the rewrite is undone by mapping back and re-padding, and it drops exactly the padding |

## Left out

- HTTP, OAuth, Flask routing, templates, configuration files, token storage and the browser's DOM, camera, clipboard and `fetch` code are not part of this model. They are I/O.
- `get_datacloud_token` is one boolean: whether a token was obtained. It catches its own exceptions and returns None on failure.
- The configured connector and object names, the ingestion URL, the request headers and the base64 encoding of the upload only shape HTTP requests, so they are left out.
- `json.loads`, `response.json()`, `json.dumps`, `btoa` and SHA-256 are parameters or left out. The reply body is a `Json` value, not serialized text.
- Exception messages (`str(e)`) are not modelled. `Crashed` and `Unprocessable` carry no message, and the ingestion fault text is the parameter `describe`.
- Numbers are integers. Floating-point JSON numbers are not modelled.
- Extraction.AllowedFile: lower-cases ASCII letters only, where Python's `lower()` is Unicode-aware. The only non-ASCII character that lower-cases to a single ASCII letter is the Kelvin sign, which becomes `k`. No allowed extension contains `k`, so the accepted names are the same.
- DataCloud.Records: a lead that is not a dict is treated as making `update` raise. Python's `dict.update` accepts any iterable of pairs (a list of pairs, `[]`, `""`); for instance a lead `{"type":"string","value":""}` unwraps to `""`, `record.update("")` succeeds and the record holds only `EventID` and `eventime`, where the model gives `Raised(LeadNotAnObject)`.
- Browser.CleanEntries: assumes the reply object has distinct keys, as `JSON.parse` guarantees. The browser's call on a null reply, which throws, is not modelled.
- Browser.CleanEntries: models an object reply only. A reply that is a list, which the server can return (`Extraction.ExtractedList`), is enumerated by `Object.entries` under the index keys "0", "1", ...; that case is not modelled.
- JavaScript enumerates integer-like keys before other keys. The model keeps insertion order for every key.
- A JavaScript member named `__proto__` is not kept by `o[k] = v` in `extractValue`, the unwrap loop or the field split: the assignment sets the object's prototype (for an object, array or null value) or is ignored. The model keeps it as an ordinary key, so `Browser.ObjectNode`, `Browser.ExtractMembers`, `Browser.CleanEntries`, `Browser.PartitionKeys`, `Browser.TwinsAgree` and `Browser.ExtractWrapped` do not hold for a document with that key.
- The uuid and timestamp of a record are parameters. Their uniqueness and format are not stated.

/** The response envelope: every JSON body leaves as { success, data, error, meta }. */
module Envelope {

  datatype Json =
    | Null
    | Bool(b: bool)
    | Number(n: int)
    | Text(s: string)
    | List(items: seq<Json>)
    | Object(fields: map<string, Json>)

  predicate Truthy(j: Json) {
    match j
    case Null => false
    case Bool(b) => b
    case Number(n) => n != 0
    case Text(s) => s != ""
    case List(_) => true
    case Object(_) => true
  }

  /** What counts as nothing. */
  lemma TruthyIff(j: Json)
    ensures Truthy(j) <==> j != Null && j != Bool(false) && j != Number(0) && j != Text("")
  {
  }

  /** Whether the value is an object with the key; lists have none of the keys asked for here. */
  predicate Has(j: Json, key: string) {
    j.Object? && key in j.fields
  }

  /** A field, or null when it is missing. */
  function Get(j: Json, key: string): Json {
    if Has(j, key) then j.fields[key] else Null
  }

  function Or(j: Json, default: Json): Json {
    if Truthy(j) then j else default
  }

  /** A body that already is an envelope. */
  predicate IsEnvelope(body: Json) {
    && Has(body, "success") && Has(body, "data") && Has(body, "error") && Has(body, "meta")
    && Has(body.fields["meta"], "requestId") && Has(body.fields["meta"], "timestamp")
  }

  function Problem(code: Json, message: Json, details: Json): Json {
    Object(map["code" := code, "message" := message, "details" := details])
  }

  /** The fields that describe a problem, with defaults for the missing ones. */
  function ProblemOf(source: Json, code: string): Json {
    Problem(Or(Get(source, "code"), Text(code)), Or(Get(source, "message"), Text("An error occurred")), Or(Get(source, "details"), Null))
  }

  function CodeOf(status: nat): string {
    if status == 404 then "NOT_FOUND" else if status == 403 then "FORBIDDEN" else if status == 401 then "UNAUTHORIZED" else "BAD_REQUEST"
  }

  function Payload(success: bool, data: Json, error: Json, meta: map<string, Json>): Json {
    Object(map["success" := Bool(success), "data" := data, "error" := error, "meta" := Object(meta)])
  }

  /** Wrap a body for its status; an envelope passes through. */
  function Wrap(body: Json, status: nat, requestId: string, timestamp: string): Json {
    var meta := map["timestamp" := Text(timestamp), "requestId" := Text(requestId)];
    if IsEnvelope(body) then body
    else if Has(body, "success") then
      if Truthy(body.fields["success"]) then
        Payload(true, if Has(body, "data") then body.fields["data"] else body, Null,
                if Get(body, "meta").Object? then meta + Get(body, "meta").fields else meta)
      else
        var source := if Get(body, "error").Object? || Get(body, "error").List? then Get(body, "error") else body;
        Payload(false, Null, ProblemOf(source, "INTERNAL_SERVER_ERROR"), meta)
    else if Get(body, "error").Text? then
      Payload(false, Null, Problem(Text(CodeOf(status)), Get(body, "error"), Null), meta)
    else if Get(body, "error").Object? || Get(body, "error").List? then
      Payload(false, Null, ProblemOf(Get(body, "error"), "BAD_REQUEST"), meta)
    else Payload(true, body, Null, meta)
  }

  /** Whatever is sent is an envelope, so wrapping it again, for any status, changes nothing. */
  lemma WrappingTwiceIsWrappingOnce(body: Json, status: nat, requestId: string, timestamp: string,
                                    status': nat, requestId': string, timestamp': string)
    ensures var sent := Wrap(body, status, requestId, timestamp);
      IsEnvelope(sent) && Wrap(sent, status', requestId', timestamp') == sent
  {
    var sent := Wrap(body, status, requestId, timestamp);
    if !IsEnvelope(body) {
      assert Has(sent.fields["meta"], "requestId") && Has(sent.fields["meta"], "timestamp");
    }
  }

  /** A body that is wrapped is a success without an error, or a failure without data and with a code. */
  lemma WrappedIsSuccessOrFailure(body: Json, status: nat, requestId: string, timestamp: string)
    requires !IsEnvelope(body)
    ensures var sent := Wrap(body, status, requestId, timestamp);
      (Get(sent, "success") == Bool(true) && Get(sent, "error") == Null)
      || (Get(sent, "success") == Bool(false) && Get(sent, "data") == Null && Truthy(Get(Get(sent, "error"), "code")))
  {
    var sent := Wrap(body, status, requestId, timestamp);
    if Get(sent, "success") == Bool(false) {
      assert Truthy(Text(CodeOf(status)));
    }
  }

  /** A wrapped failure carries a message, except when the body is an error whose text is empty. */
  lemma FailureHasMessageIff(body: Json, status: nat, requestId: string, timestamp: string)
    requires !IsEnvelope(body) && Get(Wrap(body, status, requestId, timestamp), "success") == Bool(false)
    ensures Truthy(Get(Get(Wrap(body, status, requestId, timestamp), "error"), "message"))
      <==> (Has(body, "success") || Get(body, "error") != Text(""))
  {
  }

  /** The body speaks of an error, in words or as an object, and does not say itself whether it is a success. */
  predicate MentionsError(body: Json) {
    !Has(body, "success") && (Get(body, "error").Text? || Get(body, "error").Object? || Get(body, "error").List?)
  }

  /** Where a failed body describes its problem: in its error if that is an object, else in itself. */
  function Described(body: Json): Json {
    if Get(body, "error").Object? || Get(body, "error").List? then Get(body, "error") else body
  }

  /** A field of the problem arrives as it was given, or as the default if it was missing or empty. */
  predicate Arrives(sent: Json, field: string, source: Json, default: Json) {
    Get(Get(sent, "error"), field) == if Truthy(Get(source, field)) then Get(source, field) else default
  }

  /**
   A body is sent as a success exactly when it says so, or says nothing and mentions no error. Its data
   then arrives: what it put under data, or all of it; and so does every field of its own meta.
   */
  lemma DataArrives(body: Json, status: nat, requestId: string, timestamp: string)
    requires !IsEnvelope(body)
    ensures var sent := Wrap(body, status, requestId, timestamp);
      Get(sent, "success") == Bool(if Has(body, "success") then Truthy(Get(body, "success")) else !MentionsError(body))
    ensures Has(body, "success") && Truthy(Get(body, "success")) ==>
      Get(Wrap(body, status, requestId, timestamp), "data") == if Has(body, "data") then Get(body, "data") else body
    ensures !Has(body, "success") && !MentionsError(body) ==> Get(Wrap(body, status, requestId, timestamp), "data") == body
    ensures Has(body, "success") && Truthy(Get(body, "success")) && Get(body, "meta").Object? ==>
      forall k :: k in Get(body, "meta").fields ==>
        Get(Get(Wrap(body, status, requestId, timestamp), "meta"), k) == Get(body, "meta").fields[k]
  {
  }

  /** Every reply carries its request and its time, unless a successful body, or one that is an envelope already, brings its own. */
  lemma StampArrives(body: Json, status: nat, requestId: string, timestamp: string)
    ensures var meta := Get(Wrap(body, status, requestId, timestamp), "meta");
      && Has(meta, "requestId") && Has(meta, "timestamp")
      && (!Has(Get(body, "meta"), "requestId") ==> Get(meta, "requestId") == Text(requestId))
      && (!Has(Get(body, "meta"), "timestamp") ==> Get(meta, "timestamp") == Text(timestamp))
    ensures !IsEnvelope(body) ==> var meta := Get(Wrap(body, status, requestId, timestamp), "meta");
      && (!Has(Get(body, "meta"), "requestId") || !Truthy(Get(body, "success")) ==> Get(meta, "requestId") == Text(requestId))
      && (!Has(Get(body, "meta"), "timestamp") || !Truthy(Get(body, "success")) ==> Get(meta, "timestamp") == Text(timestamp))
  {
  }

  /**
   The problem of a body that says it failed, or that only mentions an error, arrives: the words of a text
   under a code for the status, and the fields of an object, each with a default if it is missing.
   */
  lemma ProblemArrives(body: Json, status: nat, requestId: string, timestamp: string)
    requires !IsEnvelope(body)
    ensures var sent := Wrap(body, status, requestId, timestamp);
      Has(body, "success") && !Truthy(Get(body, "success")) ==>
        && Arrives(sent, "code", Described(body), Text("INTERNAL_SERVER_ERROR"))
        && Arrives(sent, "message", Described(body), Text("An error occurred"))
        && Arrives(sent, "details", Described(body), Null)
    ensures var sent := Wrap(body, status, requestId, timestamp);
      MentionsError(body) && !Get(body, "error").Text? ==>
        && Arrives(sent, "code", Get(body, "error"), Text("BAD_REQUEST"))
        && Arrives(sent, "message", Get(body, "error"), Text("An error occurred"))
        && Arrives(sent, "details", Get(body, "error"), Null)
    ensures var error := Get(Wrap(body, status, requestId, timestamp), "error");
      MentionsError(body) && Get(body, "error").Text? ==>
        && Get(error, "message") == Get(body, "error") && Get(error, "details") == Null
        && (status == 401 ==> Get(error, "code") == Text("UNAUTHORIZED"))
        && (status == 403 ==> Get(error, "code") == Text("FORBIDDEN"))
        && (status == 404 ==> Get(error, "code") == Text("NOT_FOUND"))
        && (status != 401 && status != 403 && status != 404 ==> Get(error, "code") == Text("BAD_REQUEST"))
  {
  }

  /**
   Send a body. Whatever it is and whatever the status, an envelope leaves: one that was an envelope
   already as it is, any other as a success with its data and without an error or as a failure without
   data and with a code, stamped with the request.
   */
  method Respond(body: Json, status: nat, requestId: string, timestamp: string) returns (sent: Json)
    ensures IsEnvelope(sent)
    ensures IsEnvelope(body) ==> sent == body
    ensures !IsEnvelope(body) ==>
      (Get(sent, "success") == Bool(true) && Get(sent, "error") == Null)
      || (Get(sent, "success") == Bool(false) && Get(sent, "data") == Null && Truthy(Get(Get(sent, "error"), "code")))
    ensures !IsEnvelope(body) ==>
      Get(sent, "success") == Bool(if Has(body, "success") then Truthy(Get(body, "success")) else !MentionsError(body))
    ensures !IsEnvelope(body) && Get(sent, "success") == Bool(true) ==>
      Get(sent, "data") == if Has(body, "success") && Has(body, "data") then Get(body, "data") else body
    ensures !IsEnvelope(body) && !Has(Get(body, "meta"), "requestId") ==> Get(Get(sent, "meta"), "requestId") == Text(requestId)
    ensures sent == Wrap(body, status, requestId, timestamp)
  {
    if IsEnvelope(body) {
      return body;
    }
    var success, data, error := true, Null, Null;
    var meta := map["timestamp" := Text(timestamp), "requestId" := Text(requestId)];
    if Has(body, "success") {
      success := Truthy(body.fields["success"]);
      if success {
        if Get(body, "meta").Object? {
          meta := meta + Get(body, "meta").fields;
        }
        data := if Has(body, "data") then body.fields["data"] else body;
      } else if Get(body, "error").Object? || Get(body, "error").List? {
        error := ProblemOf(Get(body, "error"), "INTERNAL_SERVER_ERROR");
      } else {
        error := ProblemOf(body, "INTERNAL_SERVER_ERROR");
      }
    } else if Get(body, "error").Text? {
      success := false;
      error := Problem(Text(CodeOf(status)), Get(body, "error"), Null);
    } else if Get(body, "error").Object? || Get(body, "error").List? {
      success := false;
      error := ProblemOf(Get(body, "error"), "BAD_REQUEST");
    } else {
      data := body;
    }
    sent := Payload(success, data, error, meta);
    WrappingTwiceIsWrappingOnce(body, status, requestId, timestamp, status, requestId, timestamp);
    WrappedIsSuccessOrFailure(body, status, requestId, timestamp);
  }
}

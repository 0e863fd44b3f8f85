/**
 * The client of the lead webhook (js/modules/gas-integration.js): building the
 * submitted payload, the form-urlencoded parameter list, the bounded retry
 * schedule of `sendRequest`, the mapping of its outcome to the result that the
 * form sees, and the health probe.
 *
 * `fetch` is not modelled: every attempt the client makes is answered by the
 * next element of a sequence of outcomes supplied by the environment.
 */
module GasIntegration {
  import opened Js

  /** `config.REQUEST.retries` */
  const Retries: nat := 2
  /** The first attempt plus every retry. */
  const MaxAttempts: nat := Retries + 1

  const UnknownErrorText := "Неизвестная ошибка"
  const NetworkErrorText := "Ошибка сети. Попробуйте еще раз."

  /** The `ok` property of the webhook's JSON reply. */
  datatype OkField =
    | OkTrue     // exactly `true`
    | OkTruthy   // some other truthy value, such as 1 or "yes"
    | OkFalsy    // false, null, 0, "" or missing

  /** The JSON body the webhook replies with: `{ok, data?, message?}`. */
  datatype Reply = Reply(ok: OkField, data: Option<string>, message: Option<string>)

  /** What one `fetch` of the webhook produced. */
  datatype Attempt =
    | Threw                                      // network failure or timeout abort
    | Response(status: int, body: Option<Reply>) // body None: not parseable as JSON

  /** `response.ok`: the status is in the 2xx range. */
  predicate StatusOk(status: int) { 200 <= status <= 299 }

  /**
   * The reply an attempt yields to `sendRequest`, or None when the attempt
   * counts as a failure: a thrown error, a non-2xx status (which
   * `sendRequest` turns into a thrown Error), or a body that is not JSON.
   */
  function Delivered(a: Attempt): (r: Option<Reply>)
    ensures r.Some? <==> a.Response? && StatusOk(a.status) && a.body.Some?
  {
    match a
    case Threw => None
    case Response(status, body) => if StatusOk(status) then body else None
  }

  /** How `sendRequest` ends, with the delays (in ms) it waited before retrying. */
  datatype SendResult =
    | Replied(reply: Reply, waits: seq<int>)
    | Failed(waits: seq<int>)

  /**
   * `sendRequest(data, retryCount)`: attempt number `retryCount` is answered
   * by `outcomes[retryCount]`; on failure, while `retryCount < Retries`, wait
   * 1000 * (retryCount + 1) ms and recurse with the next count; otherwise the
   * error propagates.
   */
  function SendRequest(outcomes: seq<Attempt>, retryCount: nat): (r: SendResult)
    requires |outcomes| == MaxAttempts && retryCount <= Retries
    ensures |r.waits| <= Retries - retryCount
    ensures forall k :: 0 <= k < |r.waits| ==> r.waits[k] == 1000 * (retryCount + k + 1)
    ensures forall k :: retryCount <= k < retryCount + |r.waits| ==> Delivered(outcomes[k]).None?
    ensures r.Replied? ==> Delivered(outcomes[retryCount + |r.waits|]) == Some(r.reply)
    ensures r.Failed? ==> |r.waits| == Retries - retryCount
                          && Delivered(outcomes[Retries]).None?
    decreases Retries - retryCount
  {
    match Delivered(outcomes[retryCount])
    case Some(reply) => Replied(reply, [])
    case None =>
      if retryCount < Retries then
        var rest := SendRequest(outcomes, retryCount + 1);
        var wait := 1000 * (retryCount + 1);
        match rest
        case Replied(reply, waits) => Replied(reply, [wait] + waits)
        case Failed(waits) => Failed([wait] + waits)
      else Failed([])
  }

  /**
   * A whole `sendRequest(data)` call makes at most three attempts, waits
   * 1000 ms and then 2000 ms between them (a linear, not exponential,
   * schedule), and fails exactly when every attempt failed.
   */
  lemma RetrySchedule(outcomes: seq<Attempt>)
    requires |outcomes| == MaxAttempts
    ensures var r := SendRequest(outcomes, 0);
      && |r.waits| + 1 <= 3
      && r.waits == [1000, 2000][..|r.waits|]
      && (r.Failed? <==> forall k :: 0 <= k < MaxAttempts ==> Delivered(outcomes[k]).None?)
  {
    var r := SendRequest(outcomes, 0);
    if r.Replied? {
      assert Delivered(outcomes[|r.waits|]).Some?;
    }
  }

  // ---------------------------------------------------------------------
  // Payload

  /** The parts of `window.location` and `document` that the payload reads. */
  datatype PageLocation = PageLocation(
    pathname: string,                // window.location.pathname
    referrer: string,                // document.referrer
    query: seq<(string, string)>)    // the name/value pairs of location.search

  /**
   * `getUrlParameter(name)`: the first value of `name` in the query, or ''
   * when it is missing (`URLSearchParams.get` gives null, and `|| ''` maps
   * both null and '' to '').
   */
  function GetUrlParameter(query: seq<(string, string)>, name: string): (v: string)
    ensures v != "" ==> exists i :: 0 <= i < |query| && query[i] == (name, v)
    ensures (forall i :: 0 <= i < |query| ==> query[i].0 != name) ==> v == ""
    ensures forall i :: 0 <= i < |query| && query[i].0 == name && (forall j :: 0 <= j < i ==> query[j].0 != name)
                        ==> v == query[i].1
  {
    if query == [] then ""
    else if query[0].0 == name then query[0].1
    else GetUrlParameter(query[1..], name)
  }

  /** The form's fields; None stands for a null or undefined value. */
  type FormData = Entries<Option<string>>

  /**
   * `{...formData, website: '', page, ref, utm_source, utm_medium,
   * utm_campaign}`: the spread keeps the form's own properties in order, and
   * each of the seven added keys overwrites a property of the same name in
   * place or goes to the end.
   */
  function BuildPayload(formData: FormData, loc: PageLocation): (p: FormData)
    ensures |p| >= |formData|
    ensures UniqueKeys(formData) ==> UniqueKeys(p)
    ensures Lookup(p, "website") == Some(Some(""))
    ensures Lookup(p, "page") == Some(Some(loc.pathname))
    ensures Lookup(p, "ref") == Some(Some(loc.referrer))
    ensures Lookup(p, "utm_source") == Some(Some(GetUrlParameter(loc.query, "utm_source")))
    ensures Lookup(p, "utm_medium") == Some(Some(GetUrlParameter(loc.query, "utm_medium")))
    ensures Lookup(p, "utm_campaign") == Some(Some(GetUrlParameter(loc.query, "utm_campaign")))
    ensures forall k :: k !in AddedKeys ==> Lookup(p, k) == Lookup(formData, k)
    ensures forall i :: 0 <= i < |formData| && formData[i].0 !in AddedKeys ==> p[i] == formData[i]
  {
    AddedShape(loc);
    AssignFacts(formData, Added(loc));
    Assign(formData, Added(loc))
  }

  lemma AddedShape(loc: PageLocation)
    ensures UniqueKeys(Added(loc)) && KeySet(Added(loc)) == AddedKeys
    ensures Lookup(Added(loc), "website") == Some(Some(""))
    ensures Lookup(Added(loc), "page") == Some(Some(loc.pathname))
    ensures Lookup(Added(loc), "ref") == Some(Some(loc.referrer))
    ensures Lookup(Added(loc), "utm_source") == Some(Some(GetUrlParameter(loc.query, "utm_source")))
    ensures Lookup(Added(loc), "utm_medium") == Some(Some(GetUrlParameter(loc.query, "utm_medium")))
    ensures Lookup(Added(loc), "utm_campaign") == Some(Some(GetUrlParameter(loc.query, "utm_campaign")))
  {
    var a := Added(loc);
    var t5 := [("utm_campaign", Some(GetUrlParameter(loc.query, "utm_campaign")))];
    var t4 := [("utm_medium", Some(GetUrlParameter(loc.query, "utm_medium")))] + t5;
    var t3 := [("utm_source", Some(GetUrlParameter(loc.query, "utm_source")))] + t4;
    var t2 := [("ref", Some(loc.referrer))] + t3;
    var t1 := [("page", Some(loc.pathname))] + t2;
    assert a == [("website", Some(""))] + t1;
    assert a[1..] == t1 && t1[1..] == t2 && t2[1..] == t3 && t3[1..] == t4 && t4[1..] == t5;
    assert t5[1..] == [];
    assert KeySet(t5) == {"utm_campaign"};
    assert KeySet(t4) == {"utm_medium", "utm_campaign"};
    assert KeySet(t3) == {"utm_source", "utm_medium", "utm_campaign"};
    assert KeySet(t2) == {"ref", "utm_source", "utm_medium", "utm_campaign"};
    assert KeySet(t1) == {"page", "ref", "utm_source", "utm_medium", "utm_campaign"};
    assert "utm_source"[4] != "utm_medium"[4];
    assert "utm_source" != "utm_campaign" && "utm_medium" != "utm_campaign";
    assert UniqueKeys(t5) && UniqueKeys(t4);
    assert "utm_source" !in KeySet(t4);
    assert UniqueKeys(t3);
    assert |"ref"| == 3 && "ref" !in KeySet(t3);
    assert UniqueKeys(t2);
    assert |"page"| == 4 && "page" !in KeySet(t2);
    assert UniqueKeys(t1);
    forall i | 0 <= i < |a| {
      LookupAt(a, i);
    }
  }

  /** The properties the payload adds after the form's own. */
  function Added(loc: PageLocation): FormData {
    [("website", Some("")),
     ("page", Some(loc.pathname)),
     ("ref", Some(loc.referrer)),
     ("utm_source", Some(GetUrlParameter(loc.query, "utm_source"))),
     ("utm_medium", Some(GetUrlParameter(loc.query, "utm_medium"))),
     ("utm_campaign", Some(GetUrlParameter(loc.query, "utm_campaign")))]
  }

  const AddedKeys: set<string> :=
    {"website", "page", "ref", "utm_source", "utm_medium", "utm_campaign"}

  // ---------------------------------------------------------------------
  // encodeFormData

  /** The name/value pairs of the entries whose value is not null or undefined. */
  function Present(data: FormData): seq<(string, string)> {
    if data == [] then []
    else (if data[0].1.Some? then [(data[0].0, data[0].1.value)] else [])
         + Present(data[1..])
  }

  /**
   * `encodeFormData(data)`: one `params.append(key, value)` per entry whose
   * value is neither null nor undefined, in entry order. The result is the
   * parameter list of the URLSearchParams object; its serialization is
   * described under the model's omissions.
   */
  method EncodeFormData(data: FormData) returns (params: seq<(string, string)>)
    ensures params == Present(data)
  {
    params := [];
    var i := 0;
    while i < |data|
      invariant 0 <= i <= |data|
      invariant params + Present(data[i..]) == Present(data)
    {
      assert data[i..][1..] == data[i + 1..];
      var (key, value) := data[i];
      if value.Some? {
        params := params + [(key, value.value)];
      }
      i := i + 1;
    }
  }

  /** Encoding works entry by entry: the pairs of a concatenation are the concatenated pairs. */
  lemma {:induction false} PresentAppend(a: FormData, b: FormData)
    ensures Present(a + b) == Present(a) + Present(b)
  {
    if a != [] {
      assert (a + b)[0] == a[0] && (a + b)[1..] == a[1..] + b;
      PresentAppend(a[1..], b);
    } else {
      assert a + b == b;
    }
  }

  /** A pair is emitted exactly when the data holds that key with that (non-null) value. */
  lemma {:induction false} PresentMembers(data: FormData, key: string, value: string)
    ensures (key, value) in Present(data) <==> (key, Some(value)) in data
  {
    if data != [] {
      PresentMembers(data[1..], key, value);
      assert data == [data[0]] + data[1..];
    }
  }

  // ---------------------------------------------------------------------
  // submitLead

  /** The object `submitLead` resolves to. */
  datatype LeadResult =
    | Success(data: Option<string>, message: Option<string>)
    | Failure(error: string)

  /** JavaScript truthiness of an optional string. */
  predicate Truthy(s: Option<string>) { s.Some? && s.value != "" }

  /**
   * `submitLead(formData)`. It never throws: a reply whose `ok` is truthy
   * gives success with its data and message; any other reply gives failure
   * with its message, or a fixed text when the message is missing or empty;
   * when every attempt failed, `sendRequest` throws and the result is
   * failure with the network-error text. The payload only travels to the
   * webhook, so it does not appear in the result.
   */
  function SubmitLead(outcomes: seq<Attempt>): (r: LeadResult)
    requires |outcomes| == MaxAttempts
    ensures r.Failure? ==> r.error != ""
    ensures r.Success? <==> exists k :: 0 <= k < MaxAttempts && Delivered(outcomes[k]).Some?
                                       && Delivered(outcomes[k]).value.ok != OkFalsy
                                       && (forall j :: 0 <= j < k ==> Delivered(outcomes[j]).None?)
    ensures (forall k :: 0 <= k < MaxAttempts ==> Delivered(outcomes[k]).None?)
            ==> r == Failure(NetworkErrorText)
    ensures forall k :: 0 <= k < MaxAttempts && Delivered(outcomes[k]).Some?
                        && (forall j :: 0 <= j < k ==> Delivered(outcomes[j]).None?)
                        ==> var reply := Delivered(outcomes[k]).value;
                            r == if reply.ok != OkFalsy then Success(reply.data, reply.message)
                                 else Failure(if Truthy(reply.message) then reply.message.value else UnknownErrorText)
  {
    var sent := SendRequest(outcomes, 0);
    RetrySchedule(outcomes);
    match sent
    case Replied(reply, waits) =>
      assert forall j :: 0 <= j < |waits| ==> Delivered(outcomes[j]).None?;
      assert Delivered(outcomes[|waits|]).Some?;
      if reply.ok != OkFalsy then Success(reply.data, reply.message)
      else Failure(if Truthy(reply.message) then reply.message.value else UnknownErrorText)
    case Failed(_) => Failure(NetworkErrorText)
  }

  /** The webhook client; only the health flag is state. */
  class GASIntegration {
    var isHealthy: bool

    constructor ()
      ensures !isHealthy
    {
      isHealthy := false;
    }

    /**
     * `checkHealth()`: one GET without retries. The flag becomes true only
     * for a 2xx response whose JSON body has `ok === true`; a thrown error,
     * a non-2xx status or an unparseable body all make it false.
     */
    method CheckHealth(probe: Attempt)
      modifies this
      ensures isHealthy <==> Delivered(probe).Some? && Delivered(probe).value.ok == OkTrue
    {
      match probe
      case Threw =>
        isHealthy := false;
      case Response(status, body) =>
        if StatusOk(status) {
          match body
          case None => isHealthy := false;
          case Some(reply) => isHealthy := reply.ok == OkTrue;
        } else {
          isHealthy := false;
        }
    }
  }
}

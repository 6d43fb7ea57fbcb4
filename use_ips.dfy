/**
 * The `useIPs` hook: the browser's local copy of the IP list, with its
 * `loading` and `error` state, and the `apiCall` rule that turns an HTTP
 * reply into a value or a thrown message. The network is a parameter: each
 * operation is given the reply its request received.
 */
module UseIPs {
  import opened Results
  import opened Seqs
  import opened Records

  /** How a request made by `apiCall` ends. */
  datatype Reply<T> =
    | NetworkError(message: string)     // fetch itself rejects
    | Ok(payload: T)                    // 2xx with a JSON body
    | OkNotJson(parseMessage: string)   // 2xx whose body does not parse
    | Failed(errorBody: Record)         // non-2xx with a JSON object body
    | FailedNotJson(parseMessage: string) // non-2xx whose body does not parse (as after sendStatus)

  const FallbackMessage := "API call failed"

  /** `new Error(error.error || 'API call failed').message`. */
  function ErrorMessage(body: Record): (m: string)
    ensures Lookup(body, "error").Some? && Truthy(Lookup(body, "error").value) ==> m == ToText(Lookup(body, "error").value)
    ensures Lookup(body, "error").None? || !Truthy(Lookup(body, "error").value) ==> m == FallbackMessage
  {
    match Lookup(body, "error")
    case Some(v) => if Truthy(v) then ToText(v) else FallbackMessage
    case None => FallbackMessage
  }

  /** `apiCall`: a value for a 2xx reply with JSON, otherwise the message it throws. */
  function ApiCall<T>(reply: Reply<T>): (r: Result<T, string>)
    ensures r.Success? <==> reply.Ok?
    ensures reply.Ok? ==> r.value == reply.payload
    ensures reply.Failed? ==> r.error == ErrorMessage(reply.errorBody)
  {
    match reply
    case NetworkError(m) => Failure(m)
    case Ok(p) => Success(p)
    case OkNotJson(m) => Failure(m)
    case Failed(body) => Failure(ErrorMessage(body))
    case FailedNotJson(m) => Failure(m)
  }

  /** `prev.map(ip => ip.id === id ? updated : ip)`. */
  function ReplaceById(s: seq<Record>, id: string, updated: Record): (r: seq<Record>)
    ensures |r| == |s|
    ensures forall i :: 0 <= i < |s| && !HasId(s[i], id) ==> r[i] == s[i]
    ensures forall i :: 0 <= i < |s| && HasId(s[i], id) ==> r[i] == updated
  {
    seq(|s|, i requires 0 <= i < |s| => if HasId(s[i], id) then updated else s[i])
  }

  /** Replacing by an entry that keeps the id and then deleting the id is deleting it. */
  lemma {:induction false} DeleteAfterReplace(s: seq<Record>, id: string, updated: Record)
    requires HasId(updated, id)
    ensures WithoutId(ReplaceById(s, id, updated), id) == WithoutId(s, id)
  {
    if s != [] {
      DeleteAfterReplace(s[1..], id, updated);
      assert ReplaceById(s, id, updated)[1..] == ReplaceById(s[1..], id, updated);
    }
  }

  /** The hook's state. */
  class IpList {
    var ips: seq<Record>
    var loading: bool
    var error: Option<string>

    /** `useState([])`, `useState(true)`, `useState(null)`. */
    constructor ()
      ensures ips == [] && loading && error == None
    {
      ips, loading, error := [], true, None;
    }

    /**
     * `fetchIPs`: on success the list is the reply and the error is cleared;
     * on failure the error is the message and the list stays; either way
     * loading ends false.
     */
    method FetchIPs(reply: Reply<seq<Record>>)
      modifies this
      ensures !loading
      ensures reply.Ok? ==> ips == reply.payload && error == None
      ensures !reply.Ok? ==> ips == old(ips) && error == Some(ApiCall(reply).error)
    {
      loading := true;
      var outcome := ApiCall(reply);
      match outcome {
        case Success(data) =>
          ips := data;
          error := None;
        case Failure(message) =>
          error := Some(message);
      }
      loading := false;
    }

    /** `addIP`: appends the entry the server returned; a failure is rethrown and changes nothing. */
    method AddIP(reply: Reply<Record>) returns (r: Result<Record, string>)
      modifies this
      ensures r == ApiCall(reply)
      ensures r.Success? ==> ips == old(ips) + [r.value]
      ensures r.Failure? ==> ips == old(ips)
      ensures loading == old(loading) && error == old(error)
    {
      r := ApiCall(reply);
      if r.Success? {
        ips := ips + [r.value];
      }
    }

    /** `updateIP`: every entry with the id becomes the returned entry; a failure changes nothing. */
    method UpdateIP(id: string, reply: Reply<Record>) returns (r: Result<Record, string>)
      modifies this
      ensures r == ApiCall(reply)
      ensures r.Success? ==> ips == ReplaceById(old(ips), id, r.value)
      ensures r.Failure? ==> ips == old(ips)
      ensures loading == old(loading) && error == old(error)
    {
      r := ApiCall(reply);
      if r.Success? {
        ips := ReplaceById(ips, id, r.value);
      }
    }

    /** `deleteIP`: drops every entry with the id, order kept; a failure changes nothing. */
    method DeleteIP(id: string, reply: Reply<Record>) returns (r: Result<(), string>)
      modifies this
      ensures r.Success? <==> reply.Ok?
      ensures r.Failure? ==> r.error == ApiCall(reply).error
      ensures r.Success? ==> ips == WithoutId(old(ips), id)
      ensures r.Failure? ==> ips == old(ips)
      ensures loading == old(loading) && error == old(error)
    {
      var outcome := ApiCall(reply);
      match outcome
      case Success(_) =>
        ips := WithoutId(ips, id);
        r := Success(());
      case Failure(message) =>
        r := Failure(message);
    }
  }
}

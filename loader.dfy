/** How `fetchData` turns the outcome of a fetch into the record sequence or
    into an error message. The network request and JSON parsing are outside
    the model: their outcome is an input. */
module Loader {
  import opened Wrappers
  import opened Records

  /** A parsed JSON body. Elements of an array are taken as records; an
      object is its own properties in enumeration order, each key once. */
  datatype Json =
    | JArray(items: seq<Record>)
    | JObject(members: seq<(string, Json)>)
    | JNull
    | JScalar

  /** A value thrown inside the `try`: an Error carries a message. */
  datatype Thrown = ErrorObject(message: string) | NonError

  /** What awaiting `fetch` and `response.json()` produced. */
  datatype FetchOutcome =
    | HttpNotOk(status: int)
    | Threw(thrown: Thrown)
    | Received(body: Json)

  const NoArrayMessage := "No array found in JSON data"
  const UnknownErrorMessage := "An unknown error occurred"
  /** V8's message for the TypeError `Object.keys(null)` throws; the text
      depends on the engine. */
  const NullKeysMessage := "Cannot convert undefined or null to object"

  function HttpErrorMessage(status: int): string
  {
    "HTTP error! status: " + IntToDecimal(status)
  }

  /** `e instanceof Error ? e.message : "An unknown error occurred"`. */
  function ErrorMessage(t: Thrown): string
  {
    match t
    case ErrorObject(m) => m
    case NonError => UnknownErrorMessage
  }

  /** The first property, in enumeration order, whose value is an array. */
  function FirstArrayMember(members: seq<(string, Json)>): Option<(string, seq<Record>)>
  {
    if members == [] then None
    else if members[0].1.JArray? then Some((members[0].0, members[0].1.items))
    else FirstArrayMember(members[1..])
  }

  /** Lines 49-58: an array is used as it is; otherwise the first array-valued
      property is used, unless its key is the falsy empty string. */
  function Normalize(body: Json): Result<seq<Record>, string>
  {
    match body
    case JArray(items) => Success(items)
    case JNull => Failure(NullKeysMessage)
    case JScalar => Failure(NoArrayMessage)
    case JObject(members) =>
      match FirstArrayMember(members)
      case Some((key, items)) => if key != "" then Success(items) else Failure(NoArrayMessage)
      case None => Failure(NoArrayMessage)
  }

  /** The records `fetchData` stores, or the message it reports. */
  function Load(outcome: FetchOutcome): Result<seq<Record>, string>
  {
    match outcome
    case HttpNotOk(status) => Failure(HttpErrorMessage(status))
    case Threw(t) => Failure(ErrorMessage(t))
    case Received(body) => Normalize(body)
  }

  /** Member i is the first member, in enumeration order, holding an array. */
  ghost predicate FirstArrayAt(members: seq<(string, Json)>, i: int)
  {
    0 <= i < |members| && members[i].1.JArray? && forall j :: 0 <= j < i ==> !members[j].1.JArray?
  }

  /** The property chosen is the first one holding an array: when member i
      holds an array and none before it does, the load yields that array (or
      fails if its key is empty); when no member holds one, it fails with
      "No array found in JSON data". */
  lemma {:induction false} NormalizeObject(members: seq<(string, Json)>)
    ensures (forall i :: 0 <= i < |members| ==> !members[i].1.JArray?) ==>
              Normalize(JObject(members)) == Failure(NoArrayMessage)
    ensures forall i :: FirstArrayAt(members, i) ==>
              Normalize(JObject(members)) ==
                if members[i].0 != "" then Success(members[i].1.items) else Failure(NoArrayMessage)
  {
    FirstArrayMemberSpec(members);
  }

  lemma {:induction false} FirstArrayMemberSpec(members: seq<(string, Json)>)
    ensures (forall i :: 0 <= i < |members| ==> !members[i].1.JArray?) ==> FirstArrayMember(members).None?
    ensures forall i :: FirstArrayAt(members, i) ==>
              FirstArrayMember(members) == Some((members[i].0, members[i].1.items))
  {
    if members != [] {
      FirstArrayMemberSpec(members[1..]);
      forall i | 0 < i && FirstArrayAt(members, i)
        ensures FirstArrayMember(members) == Some((members[i].0, members[i].1.items))
      {
        assert FirstArrayAt(members[1..], i - 1);
      }
      if forall i :: 0 <= i < |members| ==> !members[i].1.JArray? {
        assert forall i :: 0 <= i < |members| - 1 ==> members[1..][i] == members[i + 1];
      }
    }
  }

  /** A non-ok status fails before the body is looked at; its message names
      the status. */
  lemma HttpFailureMessage(status: int)
    ensures Load(HttpNotOk(status)).Failure?
    ensures |Load(HttpNotOk(status)).error| > |"HTTP error! status: "|
    ensures Load(HttpNotOk(status)).error[..20] == "HTTP error! status: "
    ensures Load(HttpNotOk(status)).error[20..] == IntToDecimal(status)
    ensures SignedDecimalValue(Load(HttpNotOk(status)).error[20..]) == status
  {
  }

  /** Different statuses give different messages. */
  lemma HttpMessagesDistinct(status: int, other: int)
    requires status != other
    ensures Load(HttpNotOk(status)).error != Load(HttpNotOk(other)).error
  {
    HttpFailureMessage(status);
    HttpFailureMessage(other);
  }

  /** An array under the empty key is not found: `if (dataKey)` treats the
      key "" as false. */
  lemma EmptyKeyArrayIgnored(items: seq<Record>)
    ensures Normalize(JObject([("", JArray(items))])) == Failure(NoArrayMessage)
  {
  }

  /** `{"items": [..], "meta": {}}` yields the items; `{"meta": {}}` fails. */
  lemma FirstArrayFieldScenario(items: seq<Record>)
    ensures Normalize(JObject([("items", JArray(items)), ("meta", JObject([]))])) == Success(items)
    ensures Normalize(JObject([("meta", JObject([]))])) == Failure(NoArrayMessage)
  {
  }
}

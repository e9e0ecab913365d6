/**
 * A JSON document as System.Text.Json's JsonDocument presents it: object
 * members keep their order and may repeat a name.
 */
module Json {
  import opened Wrappers

  datatype Json =
    | JNull
    | JBool(b: bool)
    | JNumber(literal: string)
    | JString(s: string)
    | JArray(elements: seq<Json>)
    | JObject(members: seq<(string, Json)>)

  /**
   * JsonElement.GetProperty on an object's members: names compare ordinally,
   * and when a name occurs more than once the last occurrence is the one found.
   */
  function LastProperty(members: seq<(string, Json)>, name: string): (r: Option<Json>)
    ensures r.None? <==> forall i :: 0 <= i < |members| ==> members[i].0 != name
    ensures r.Some? ==> exists i :: 0 <= i < |members| && members[i] == (name, r.value)
                                   && forall j :: i < j < |members| ==> members[j].0 != name
  {
    if members == [] then None
    else if members[|members| - 1].0 == name then Some(members[|members| - 1].1)
    else LastProperty(members[..|members| - 1], name)
  }
}

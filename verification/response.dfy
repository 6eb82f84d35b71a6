/** Validation of the shape of an API answer (`check_response`). */
module Response {
  import opened Results
  import opened Json

  /** `check_response`: the answer must be a dict whose `homeworks` entry
      is a list; every other shape raises `TypeError`. On success the model
      also hands back that list, which the caller reads next. */
  function CheckResponse(response: Json): (r: Result<seq<Json>, Fault>)
    ensures r.Ok? <==> response.JObj? && "homeworks" in response.fields
                       && response.fields["homeworks"].JArr?
    ensures r.Ok? ==> r.value == response.fields["homeworks"].items
    ensures r.Err? ==> r.error == TypeError
  {
    if !response.JObj? then Err(TypeError)
    else if "homeworks" !in response.fields then Err(TypeError)
    else
      match response.fields["homeworks"]
      case JArr(items) => Ok(items)
      case _ => Err(TypeError)
  }
}

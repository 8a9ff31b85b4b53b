/** The parts of a Django request the core reads, and the session it writes. */
module Http {
  import opened Wrappers

  /** `request.META`, `request.POST` and `request.GET`, each a text-valued dictionary. */
  datatype Request = Request(meta: map<string, string>, post: map<string, string>, get: map<string, string>)

  /** `d.get(key, default)`. */
  function GetOr(d: map<string, string>, key: string, default: string): (r: string)
    ensures key in d ==> r == d[key]
    ensures key !in d ==> r == default
  {
    if key in d then d[key] else default
  }

  /** `d.get(key)`: the value, or None when the key is absent. */
  function Lookup(d: map<string, string>, key: string): (r: Option<string>)
    ensures r.Some? <==> key in d
    ensures r.Some? ==> r.value == d[key]
  {
    if key in d then Some(d[key]) else None
  }

  /** `request.session`: a dictionary that is saved at the end of the request
      when its `modified` flag is set. */
  class Session {
    var data: map<string, string>
    var modified: bool

    constructor (data: map<string, string>)
      ensures this.data == data && !modified
    {
      this.data := data;
      modified := false;
    }
  }
}

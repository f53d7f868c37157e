/** How the client reads the reply of one `fetch` call: the three pages all do
    `const data = await response.json(); if (data.status === 'success') ...`
    inside a `try`, so a network error, a body that is not JSON and a body that
    is `null` all end in the `catch` branch. */
module Http {
  import opened Json
  import opened Wrappers

  /** What one awaited `fetch` produced. */
  datatype Transport =
    | NetworkError                   // `fetch` rejected
    | Responded(body: Option<Value>) // any HTTP status; None when `response.json()` rejects

  /** The three ways a page's handler can continue after the awaits. */
  datatype Reading =
    | Succeeded(body: Value)   // `data.status === 'success'`
    | Refused(body: Value)     // a JSON body whose `status` is anything else or absent
    | Broken                   // the `catch` branch

  function Read(t: Transport): (r: Reading)
    ensures r.Broken? <==> t.NetworkError? || t.body.None? || t.body.value.Null?
    ensures r.Succeeded? <==> t.Responded? && t.body.Some? && IsString(Member(t.body.value, "status"), "success")
    ensures !r.Broken? ==> r.body == t.body.value
  {
    match t
    case NetworkError => Broken
    case Responded(None) => Broken
    case Responded(Some(v)) =>
      var status := Member(v, "status");
      if status.Throws? then Broken
      else if IsString(status, "success") then Succeeded(v)
      else Refused(v)
  }

  /** The server's message as `data.message` shows it, for a body that did not
      throw on `.status` (so it is not `null`). */
  function MessageOf(body: Value): (p: Prop)
    requires !body.Null?
    ensures !p.Throws?
    ensures body.Obj? && "message" in body.fields ==> p == Found(body.fields["message"])
    ensures !(body.Obj? && "message" in body.fields) ==> p == Undefined
  {
    Member(body, "message")
  }
}

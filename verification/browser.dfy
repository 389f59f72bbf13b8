/** The browser environment the client components act on: `localStorage` as a map from
    keys to strings, the HTTP requests a handler issues, the outcome a request settles
    with, and the result of one handler run (a transition). */
module Browser {
  import opened Wrappers
  import opened Js
  import opened Text

  /** `localStorage`: every stored value is a string. */
  type Storage = map<string, string>

  const AccessTokenKey := "access_token"
  const RefreshTokenKey := "refresh_token"
  const ResumeIdKey := "resume_id"
  /** The key an older client version used for the résumé id. */
  const LegacyResumeIdKey := "resumeId"
  const VacancyIdKey := "vacancyId"

  /** `localStorage.getItem(k)`: the stored string, or null when the key is absent. */
  function GetItem(st: Storage, k: string): (r: Json)
    ensures r.Str? || r.Null?
    ensures r.Str? <==> k in st
    ensures r.Str? ==> r.s == st[k]
  {
    if k in st then Str(st[k]) else Null
  }

  /** `localStorage.setItem(k, v)`: the value is converted with `String(v)`. */
  function SetItem(st: Storage, k: string, v: Json): (r: Storage)
    ensures GetItem(r, k) == Str(ToStr(v))
    ensures forall k' :: k' != k ==> GetItem(r, k') == GetItem(st, k')
    ensures r.Keys == st.Keys + {k}
  {
    st[k := ToStr(v)]
  }

  /** `localStorage.removeItem(k)`. */
  function RemoveItem(st: Storage, k: string): (r: Storage)
    ensures GetItem(r, k) == Null
    ensures forall k' :: k' != k ==> GetItem(r, k') == GetItem(st, k')
    ensures r.Keys == st.Keys - {k}
  {
    st - {k}
  }

  datatype Method = GET | POST | DELETE

  /** A file picked in a file input; its content is opaque to the client. */
  datatype File = File(name: string)

  /** The value appended to a `FormData`: a file, or the string a non-file value turns into. */
  datatype Part = FilePart(file: File) | TextPart(text: string)

  datatype Body = NoBody | JsonBody(json: Json) | Multipart(field: string, part: Part)

  /** One HTTP request: verb, URL, body and the `Authorization` header, if sent. */
  datatype Request = Request(verb: Method, url: string, body: Body, authorization: Option<string>)

  /** How a request settles: a 2xx response, a response with another status (axios
      rejects it; `fetch` resolves it with `ok` false), or no response at all, carrying the
      transport's error message. */
  datatype Outcome = Success(body: Json) | Rejected(status: int, body: Json) | NoResponse(message: string)

  /** What a component renders for a list section: nothing, one item per element, or a
      TypeError thrown while rendering. */
  datatype Rendered = Nothing | Items(items: seq<Json>) | RenderError

  /** The result of running one handler: the component's next state, the storage
      afterwards, the requests issued in order, and the route navigated to, if any. */
  datatype Transition<S> = Transition(state: S, storage: Storage, requests: seq<Request>, navigation: Option<string>)

  /** The `Authorization` header built from whatever the token lookup returned. */
  function Bearer(token: Json): string {
    "Bearer " + ToStr(token)
  }

  /** The message axios puts on the error for a non-2xx response. */
  function AxiosStatusMessage(status: int): string {
    "Request failed with status code " + Decimal(status)
  }
}

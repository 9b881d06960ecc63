/**
 The decision table of the `/store/` handler: how one request (method, path,
 body) becomes a store operation, a status code and a short message, stated on
 the table as a value. `Serve` gives the response and the table afterwards.
 */
module Dispatch {
  import opened Entries

  // HTTP status codes the handler answers with.
  const StatusOK := 200
  const StatusCreated := 201
  const StatusBadRequest := 400
  const StatusNotFound := 404
  const StatusMethodNotAllowed := 405
  const StatusInternalServerError := 500

  // Request methods the handler dispatches on (compared case-sensitively).
  const MethodPut := "PUT"
  const MethodGet := "GET"
  const MethodDelete := "DELETE"

  const StorePrefix := "/store/"

  const MsgCreated := "Key created"
  const MsgUpdated := "Key updated"
  const MsgDeleted := "Key deleted"
  const MsgNotFound := "Key not found"
  const MsgKeyMissing := "Invalid request format, key missing in URL"
  const MsgBodyUnreadable := "Failed to read request body"
  const MsgMethodNotAllowed := "Method not allowed"

  datatype Option<+T> = None | Some(value: T)

  /** One request: its HTTP method, its URL path, and its body (None when reading the body failed). */
  datatype Request = Request(verb: string, path: string, body: Option<string>)

  datatype Response = Response(status: int, message: string)

  /** `s` without a leading `prefix`; `s` itself when it does not start with it. */
  function TrimPrefix(s: string, prefix: string): (r: string)
    ensures prefix <= s ==> s == prefix + r
    ensures !(prefix <= s) ==> r == s
  {
    if prefix <= s then s[|prefix|..] else s
  }

  /** The key a request addresses: its path with the `/store/` prefix removed. */
  function KeyOf(req: Request): (k: string)
  {
    TrimPrefix(req.path, StorePrefix)
  }

  /** Methods the handler dispatches; every other one is refused with 405. */
  predicate Dispatched(verb: string)
  {
    verb == MethodPut || verb == MethodGet || verb == MethodDelete
  }

  /**
   The response to `req` against table `m`, and the table afterwards. A PUT
   reads its body before it looks at the key; GET and DELETE check the key
   first. Every failure leaves the table as it was, only the request's own key
   can change, and 201 is answered exactly for a PUT that creates its key.
   */
  function Serve(m: map<string, string>, req: Request): (res: (Response, map<string, string>))
    ensures res.0.status in {StatusOK, StatusCreated, StatusBadRequest, StatusNotFound,
                             StatusMethodNotAllowed, StatusInternalServerError}
    ensures res.0.status != StatusOK && res.0.status != StatusCreated ==> res.1 == m
    ensures forall k :: k != KeyOf(req) ==> (k in res.1 <==> k in m)
    ensures forall k :: k != KeyOf(req) && k in m ==> res.1[k] == m[k]
    ensures res.0.status == StatusCreated <==>
              req.verb == MethodPut && req.body.Some? && KeyOf(req) != "" && KeyOf(req) !in m
  {
    var key := KeyOf(req);
    if req.verb == MethodPut then
      match req.body
      case None => (Response(StatusInternalServerError, MsgBodyUnreadable), m)
      case Some(value) =>
        if key == "" then (Response(StatusBadRequest, MsgKeyMissing), m)
        else
          var (m', created) := SetEntry(m, key, value);
          if created then (Response(StatusCreated, MsgCreated), m')
          else (Response(StatusOK, MsgUpdated), m')
    else if req.verb == MethodGet then
      if key == "" then (Response(StatusBadRequest, MsgKeyMissing), m)
      else
        var (value, found) := GetEntry(m, key);
        if found then (Response(StatusOK, value), m)
        else (Response(StatusNotFound, MsgNotFound), m)
    else if req.verb == MethodDelete then
      if key == "" then (Response(StatusBadRequest, MsgKeyMissing), m)
      else
        var (m', found) := DeleteEntry(m, key);
        if found then (Response(StatusOK, MsgDeleted), m')
        else (Response(StatusNotFound, MsgNotFound), m)
    else
      (Response(StatusMethodNotAllowed, MsgMethodNotAllowed), m)
  }

  /** The key is the path after `/store/`, e.g. `/store/foo` addresses `foo`. */
  lemma KeyIsPathAfterPrefix(key: string)
    ensures KeyOf(Request(MethodGet, StorePrefix + key, None)) == key
    ensures KeyOf(Request(MethodGet, StorePrefix, None)) == ""
  {
  }

  /** A PUT whose body cannot be read fails with 500, whatever its key. */
  lemma UnreadableBodyFailsFirst(m: map<string, string>, path: string)
    ensures Serve(m, Request(MethodPut, path, None)) == (Response(StatusInternalServerError, MsgBodyUnreadable), m)
  {
  }

  /** An empty key on a dispatched method whose body was read is a 400, and the table is untouched. */
  lemma EmptyKeyRejected(m: map<string, string>, req: Request)
    requires Dispatched(req.verb) && KeyOf(req) == ""
    requires req.verb == MethodPut ==> req.body.Some?
    ensures Serve(m, req) == (Response(StatusBadRequest, MsgKeyMissing), m)
  {
  }

  /** A PUT with a key stores its body verbatim (empty included): 201 if the key was new, else 200. */
  lemma PutStoresBody(m: map<string, string>, path: string, value: string)
    requires KeyOf(Request(MethodPut, path, Some(value))) != ""
    ensures var key := KeyOf(Request(MethodPut, path, Some(value)));
            Serve(m, Request(MethodPut, path, Some(value))) ==
              if key in m then (Response(StatusOK, MsgUpdated), m[key := value])
              else (Response(StatusCreated, MsgCreated), m[key := value])
  {
  }

  /** A GET with a key answers 200 with the stored value, or 404; the table is untouched. */
  lemma GetAnswers(m: map<string, string>, req: Request)
    requires req.verb == MethodGet && KeyOf(req) != ""
    ensures Serve(m, req).1 == m
    ensures KeyOf(req) in m ==> Serve(m, req).0 == Response(StatusOK, m[KeyOf(req)])
    ensures KeyOf(req) !in m ==> Serve(m, req).0 == Response(StatusNotFound, MsgNotFound)
  {
  }

  /** A DELETE with a key removes it with 200, or answers 404 and leaves the table as it was. */
  lemma DeleteAnswers(m: map<string, string>, req: Request)
    requires req.verb == MethodDelete && KeyOf(req) != ""
    ensures KeyOf(req) in m ==> Serve(m, req) == (Response(StatusOK, MsgDeleted), m - {KeyOf(req)})
    ensures KeyOf(req) !in m ==> Serve(m, req) == (Response(StatusNotFound, MsgNotFound), m)
  {
  }

  /** Any other method is refused with 405, whatever the key, and the table is untouched. */
  lemma OtherMethodNotAllowed(m: map<string, string>, req: Request)
    requires !Dispatched(req.verb)
    ensures Serve(m, req) == (Response(StatusMethodNotAllowed, MsgMethodNotAllowed), m)
  {
  }

  /** A successful PUT followed by a GET of the same path answers 200 with the body stored. */
  lemma PutThenGet(m: map<string, string>, path: string, value: string)
    requires TrimPrefix(path, StorePrefix) != ""
    ensures Serve(Serve(m, Request(MethodPut, path, Some(value))).1, Request(MethodGet, path, None)).0
              == Response(StatusOK, value)
  {
  }

  /**
   The answer to a request depends on the table only through the request's own
   key, and so does that key's entry afterwards.
   */
  lemma ServeIsLocal(m1: map<string, string>, m2: map<string, string>, req: Request)
    requires KeyOf(req) in m1 <==> KeyOf(req) in m2
    requires KeyOf(req) in m1 ==> m1[KeyOf(req)] == m2[KeyOf(req)]
    ensures Serve(m1, req).0 == Serve(m2, req).0
    ensures KeyOf(req) in Serve(m1, req).1 <==> KeyOf(req) in Serve(m2, req).1
    ensures KeyOf(req) in Serve(m1, req).1 ==> Serve(m1, req).1[KeyOf(req)] == Serve(m2, req).1[KeyOf(req)]
  {
  }

  /**
   Requests on different keys commute: served in either order they get the
   same answers and leave the same table, so the order in which the lock
   admits them is not observable.
   */
  lemma DistinctKeysCommute(m: map<string, string>, a: Request, b: Request)
    requires KeyOf(a) != KeyOf(b)
    ensures Serve(Serve(m, a).1, b).0 == Serve(m, b).0
    ensures Serve(Serve(m, b).1, a).0 == Serve(m, a).0
    ensures Serve(Serve(m, a).1, b).1 == Serve(Serve(m, b).1, a).1
  {
    var ma, mb := Serve(m, a).1, Serve(m, b).1;
    var mab, mba := Serve(ma, b).1, Serve(mb, a).1;
    ServeIsLocal(m, ma, b);
    ServeIsLocal(m, mb, a);
    forall k
      ensures k in mab <==> k in mba
      ensures k in mab ==> mab[k] == mba[k]
    {
      if k == KeyOf(a) {
        assert (k in mab <==> k in ma) && (k in ma ==> mab[k] == ma[k]);
      } else if k == KeyOf(b) {
        assert (k in mba <==> k in mb) && (k in mb ==> mba[k] == mb[k]);
      } else {
        assert (k in mab <==> k in m) && (k in mba <==> k in m);
      }
    }
    assert mab == mba;
  }
}

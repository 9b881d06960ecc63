/**
 The server's store: one object holding the key/value table in a field that
 its methods update in place, and the `/store/` handler as a method on it.
 Each method runs start to finish without interleaving, as the store's lock
 guarantees; the lock itself is not modelled.
 */
module Server {
  import opened Entries
  import opened Dispatch

  class Store {
    var data: map<string, string>

    /** The store the server starts with: an empty table. */
    constructor ()
      ensures data == map[]
    {
      data := map[];
    }

    /**
     Inserts or overwrites `key`. `created` is true exactly when the key was
     absent; `statusCode` is always 200 and the handler ignores it.
     */
    method Set(key: string, value: string) returns (created: bool, statusCode: int)
      modifies this
      ensures created <==> key !in old(data)
      ensures data == old(data)[key := value]
      ensures (data, created) == SetEntry(old(data), key, value)
      ensures statusCode == StatusOK
    {
      var present := key in data;
      data := data[key := value];
      created, statusCode := !present, StatusOK;
    }

    /** Looks `key` up without changing the table; absent gives ("", false). */
    method Get(key: string) returns (value: string, found: bool)
      ensures found <==> key in data
      ensures found ==> value == data[key]
      ensures !found ==> value == ""
    {
      found := key in data;
      value := if found then data[key] else "";
    }

    /**
     Removes `key` if present; `found` says whether it was. Afterwards the key
     is absent and every other entry is as it was.
     */
    method Delete(key: string) returns (found: bool)
      modifies this
      ensures found <==> key in old(data)
      ensures data == old(data) - {key}
      ensures (data, found) == DeleteEntry(old(data), key)
    {
      found := key in data;
      if found {
        data := data - {key};
      }
    }

    /**
     The `/store/` handler: answers one request with a status and a message,
     calling at most one store operation. `body` is None when reading the
     request body failed.
     */
    method Handle(verb: string, path: string, body: Option<string>) returns (r: Response)
      modifies this
      ensures (r, data) == Serve(old(data), Request(verb, path, body))
    {
      var key := TrimPrefix(path, StorePrefix);
      if verb == MethodPut {
        match body
        case None =>
          r := Response(StatusInternalServerError, MsgBodyUnreadable);
        case Some(value) =>
          if key == "" {
            r := Response(StatusBadRequest, MsgKeyMissing);
          } else {
            var created, _ := Set(key, value);
            if created {
              r := Response(StatusCreated, MsgCreated);
            } else {
              r := Response(StatusOK, MsgUpdated);
            }
          }
      } else if verb == MethodGet {
        if key == "" {
          r := Response(StatusBadRequest, MsgKeyMissing);
        } else {
          var value, found := Get(key);
          if found {
            r := Response(StatusOK, value);
          } else {
            r := Response(StatusNotFound, MsgNotFound);
          }
        }
      } else if verb == MethodDelete {
        if key == "" {
          r := Response(StatusBadRequest, MsgKeyMissing);
        } else {
          var deleted := Delete(key);
          if deleted {
            r := Response(StatusOK, MsgDeleted);
          } else {
            r := Response(StatusNotFound, MsgNotFound);
          }
        }
      } else {
        r := Response(StatusMethodNotAllowed, MsgMethodNotAllowed);
      }
    }
  }

  /**
   A session against a fresh server: PUT foo=bar, GET foo, PUT foo=baz,
   DELETE foo, GET foo, then GET with an empty key and PATCH foo.
   */
  method Session() returns (rs: seq<Response>)
    ensures rs == [Response(StatusCreated, MsgCreated), Response(StatusOK, "bar"),
                   Response(StatusOK, MsgUpdated), Response(StatusOK, MsgDeleted),
                   Response(StatusNotFound, MsgNotFound), Response(StatusBadRequest, MsgKeyMissing),
                   Response(StatusMethodNotAllowed, MsgMethodNotAllowed)]
  {
    var s := new Store();
    var path := StorePrefix + "foo";
    KeyIsPathAfterPrefix("foo");
    var r1 := s.Handle(MethodPut, path, Some("bar"));
    var r2 := s.Handle(MethodGet, path, None);
    var r3 := s.Handle(MethodPut, path, Some("baz"));
    var r4 := s.Handle(MethodDelete, path, None);
    var r5 := s.Handle(MethodGet, path, None);
    var r6 := s.Handle(MethodGet, StorePrefix, None);
    var r7 := s.Handle("PATCH", path, None);
    rs := [r1, r2, r3, r4, r5, r6, r7];
  }
}
